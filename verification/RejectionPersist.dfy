/** Append-only idempotent persistence of scanner rejections.

    Many threads insert rows over an unreliable link.  A row carries an event id
    that is generated once per rejection and reused on every retry; a unique
    index on the event id turns a repeated insert into a duplicate-key error.
    The module gives the atomic actions of the protocol (`Step`), proves what
    every interleaving of them keeps (`Inv`), and then gives the tracker class
    whose methods perform those actions. */
module RejectionPersist {
  import opened Common

  type EventId = nat

  /** What one insert does: the adversary picks it.  The `After` faults commit
      the row and lose, or garble, the reply. */
  datatype Fault = Clean | LostBefore | LostAfter | Refused | RefusedAfter

  datatype Reply = Stored | DuplicateKey | Disconnected | Permanent

  datatype Outcome = PersistedNew | DuplicateAck | RetryRecovery | LostAfterRetries | PermanentFailure

  /** One attempt plus one retry per entry of the backoff table (0.25s, 0.5s). */
  const MAX_ATTEMPTS: nat := 3

  /** The table after an insert, and the reply the client sees. */
  function InsertRow(rows: seq<EventId>, id: EventId, fault: Fault): (seq<EventId>, Reply) {
    var stored := if id in rows then rows else rows + [id];
    match fault
    case Clean => if id in rows then (rows, DuplicateKey) else (stored, Stored)
    case LostBefore => (rows, Disconnected)
    case LostAfter => (stored, Disconnected)
    case Refused => (rows, Permanent)
    case RefusedAfter => (stored, Permanent)
  }

  predicate Commits(fault: Fault) {
    fault in {Clean, LostAfter, RefusedAfter}
  }

  /** Where one rejection event stands.  `Decided` and `FlushDecided` are the
      windows between the database reply and the counter update. */
  datatype Phase =
    | Trying(attempt: nat)
    | Decided(outcome: Outcome)
    | Counted(outcome: Outcome)
    | Buffered
    | Flushing
    | FlushDecided(outcome: Outcome)

  datatype Counters = Counters(
    persistedNew: int, duplicateAck: int, retryRecovery: int,
    lostAfterRetries: int, permanentFailure: int)
  {
    function Get(o: Outcome): int {
      match o
      case PersistedNew => persistedNew
      case DuplicateAck => duplicateAck
      case RetryRecovery => retryRecovery
      case LostAfterRetries => lostAfterRetries
      case PermanentFailure => permanentFailure
    }

    function Add(o: Outcome, n: int): Counters {
      match o
      case PersistedNew => this.(persistedNew := persistedNew + n)
      case DuplicateAck => this.(duplicateAck := duplicateAck + n)
      case RetryRecovery => this.(retryRecovery := retryRecovery + n)
      case LostAfterRetries => this.(lostAfterRetries := lostAfterRetries + n)
      case PermanentFailure => this.(permanentFailure := permanentFailure + n)
    }

    function Sum(): int {
      persistedNew + duplicateAck + retryRecovery + lostAfterRetries + permanentFailure
    }

    /** The figure that makes a job PARTIAL. */
    function PersistFailures(): int { lostAfterRetries + permanentFailure }
  }

  const ZERO := Counters(0, 0, 0, 0, 0)

  datatype State = State(
    rows: seq<EventId>, counters: Counters, buffer: seq<EventId>, phase: map<EventId, Phase>)

  const INIT := State([], ZERO, [], map[])

  /** The atomic actions: one database call, or one section under the counter lock. */
  datatype Step =
    | Begin(id: EventId)
    | BuildFails(id: EventId)
    | Attempt(id: EventId, fault: Fault)
    | Count(id: EventId)
    | TakePending
    | FlushAttempt(id: EventId, fault: Fault)
    | FlushCount(id: EventId)

  predicate Enabled(s: State, step: Step) {
    match step
    case Begin(id) => id !in s.phase
    case BuildFails(id) => id !in s.phase
    case Attempt(id, _) => id in s.phase && s.phase[id].Trying?
    case Count(id) => id in s.phase && s.phase[id].Decided?
    case TakePending => true
    case FlushAttempt(id, _) => id in s.phase && s.phase[id].Flushing?
    case FlushCount(id) => id in s.phase && s.phase[id].FlushDecided?
  }

  /** What the retry loop makes of a reply to attempt `k`. */
  function AfterReply(reply: Reply, k: nat): Phase {
    match reply
    case Stored => Decided(if k > 0 then RetryRecovery else PersistedNew)
    case DuplicateKey => Decided(DuplicateAck)
    case Permanent => Decided(PermanentFailure)
    case Disconnected => if k + 1 < MAX_ATTEMPTS then Trying(k + 1) else Decided(LostAfterRetries)
  }

  /** What the final flush makes of a reply; any other error leaves the row lost. */
  function AfterFlushReply(reply: Reply): Phase {
    match reply
    case Stored => FlushDecided(RetryRecovery)
    case DuplicateKey => FlushDecided(DuplicateAck)
    case _ => Counted(LostAfterRetries)
  }

  function TakeAll(phase: map<EventId, Phase>): map<EventId, Phase> {
    map id | id in phase :: if phase[id].Buffered? then Flushing else phase[id]
  }

  function Next(s: State, step: Step): State
    requires Enabled(s, step)
  {
    match step
    case Begin(id) => s.(phase := s.phase[id := Trying(0)])
    case BuildFails(id) =>
      s.(counters := s.counters.Add(PermanentFailure, 1),
         phase := s.phase[id := Counted(PermanentFailure)])
    case Attempt(id, fault) =>
      var (rows', reply) := InsertRow(s.rows, id, fault);
      s.(rows := rows', phase := s.phase[id := AfterReply(reply, s.phase[id].attempt)])
    case Count(id) =>
      var o := s.phase[id].outcome;
      if o.LostAfterRetries? then
        s.(counters := s.counters.Add(o, 1), buffer := s.buffer + [id], phase := s.phase[id := Buffered])
      else
        s.(counters := s.counters.Add(o, 1), phase := s.phase[id := Counted(o)])
    case TakePending => s.(buffer := [], phase := TakeAll(s.phase))
    case FlushAttempt(id, fault) =>
      var (rows', reply) := InsertRow(s.rows, id, fault);
      s.(rows := rows', phase := s.phase[id := AfterFlushReply(reply)])
    case FlushCount(id) =>
      var o := s.phase[id].outcome;
      s.(counters := s.counters.Add(LostAfterRetries, -1).Add(o, 1), phase := s.phase[id := Counted(o)])
  }

  /** `steps` is an execution from `s` to `t`. */
  predicate Runs(s: State, steps: seq<Step>, t: State)
    decreases |steps|
  {
    if steps == [] then s == t
    else Enabled(s, steps[0]) && Runs(Next(s, steps[0]), steps[1..], t)
  }

  lemma {:induction false} RunsExtend(s: State, steps: seq<Step>, t: State, step: Step)
    requires Runs(s, steps, t) && Enabled(t, step)
    ensures Runs(s, steps + [step], Next(t, step))
    decreases |steps|
  {
    if steps == [] {
      assert [step][1..] == [];
    } else {
      RunsExtend(Next(s, steps[0]), steps[1..], t, step);
      assert (steps + [step])[1..] == steps[1..] + [step];
    }
  }

  // ---- the invariant -------------------------------------------------------

  /** The counter an event is in, if it has been counted.  A row waiting for or
      going through the final flush still counts as lost. */
  function CountedAs(p: Phase): Option<Outcome> {
    match p
    case Trying(_) => None
    case Decided(_) => None
    case Counted(o) => Some(o)
    case _ => Some(LostAfterRetries)
  }

  ghost function Tally(phase: map<EventId, Phase>, o: Outcome): set<EventId> {
    set id | id in phase && CountedAs(phase[id]) == Some(o)
  }

  ghost function Finished(phase: map<EventId, Phase>): set<EventId> {
    set id | id in phase && CountedAs(phase[id]) != None
  }

  predicate Success(o: Outcome) {
    o in {PersistedNew, DuplicateAck, RetryRecovery}
  }

  /** An event that the code has classified as stored, whether or not the
      counters show it yet. */
  predicate ClaimsStored(p: Phase) {
    (p.Decided? || p.Counted? || p.FlushDecided?) && Success(p.outcome)
  }

  ghost predicate PhaseOk(s: State, id: EventId)
    requires id in s.phase
  {
    var p := s.phase[id];
    && (p.Trying? ==> p.attempt < MAX_ATTEMPTS && (p.attempt == 0 ==> id !in s.rows))
    && (p.FlushDecided? ==> Success(p.outcome))
    && (ClaimsStored(p) ==> id in s.rows)
    && (p.Buffered? <==> id in s.buffer)
  }

  ghost predicate Inv(s: State) {
    && NoDup(s.rows)
    && NoDup(s.buffer)
    && (forall id | id in s.rows :: id in s.phase)
    && (forall id | id in s.buffer :: id in s.phase)
    && (forall id | id in s.phase :: PhaseOk(s, id))
    && (forall o: Outcome :: s.counters.Get(o) == |Tally(s.phase, o)|)
  }

  lemma TallyElsewhere(phase: map<EventId, Phase>, id: EventId, p: Phase, o: Outcome)
    ensures Tally(phase[id := p], o) - {id} == Tally(phase, o) - {id}
    ensures id in Tally(phase, o) <==> id in phase && CountedAs(phase[id]) == Some(o)
    ensures id in Tally(phase[id := p], o) <==> CountedAs(p) == Some(o)
  {
  }

  lemma TallyMove(phase: map<EventId, Phase>, id: EventId, p: Phase, o: Outcome)
    ensures |Tally(phase[id := p], o)| ==
            |Tally(phase, o)|
            - (if id in phase && CountedAs(phase[id]) == Some(o) then 1 else 0)
            + (if CountedAs(p) == Some(o) then 1 else 0)
  {
    TallyElsewhere(phase, id, p, o);
    SizeWithout(Tally(phase, o), id);
    SizeWithout(Tally(phase[id := p], o), id);
  }

  lemma TallyTakeAll(phase: map<EventId, Phase>, o: Outcome)
    ensures Tally(TakeAll(phase), o) == Tally(phase, o)
  {
  }

  lemma InsertKeepsRows(rows: seq<EventId>, id: EventId, fault: Fault)
    requires NoDup(rows)
    ensures var (rows', reply) := InsertRow(rows, id, fault);
            && NoDup(rows')
            && rows <= rows'
            && (forall x | x in rows' :: x in rows || x == id)
            && (reply in {Stored, DuplicateKey} ==> id in rows')
  {
  }

  lemma StepPhase(s: State, step: Step, id: EventId)
    requires Inv(s) && Enabled(s, step) && id in Next(s, step).phase
    ensures PhaseOk(Next(s, step), id)
  {
    match step
    case Attempt(x, fault) => InsertKeepsRows(s.rows, x, fault);
    case FlushAttempt(x, fault) => InsertKeepsRows(s.rows, x, fault);
    case Count(x) => assert PhaseOk(s, x);
    case FlushCount(x) => assert PhaseOk(s, x);
    case _ =>
    if id in s.phase { assert PhaseOk(s, id); }
  }

  lemma StepTally(s: State, step: Step, o: Outcome)
    requires Inv(s) && Enabled(s, step)
    ensures Next(s, step).counters.Get(o) == |Tally(Next(s, step).phase, o)|
  {
    var t := Next(s, step);
    match step
    case TakePending => TallyTakeAll(s.phase, o);
    case _ =>
      TallyMove(s.phase, step.id, t.phase[step.id], o);
  }

  /** Every atomic action keeps the invariant. */
  lemma StepKeepsInv(s: State, step: Step)
    requires Inv(s) && Enabled(s, step)
    ensures Inv(Next(s, step))
  {
    var t := Next(s, step);
    match step {
      case Attempt(x, fault) => InsertKeepsRows(s.rows, x, fault);
      case FlushAttempt(x, fault) => InsertKeepsRows(s.rows, x, fault);
      case Count(x) => assert PhaseOk(s, x);
      case _ =>
    }
    forall id | id in t.phase ensures PhaseOk(t, id) { StepPhase(s, step, id); }
    forall o: Outcome ensures t.counters.Get(o) == |Tally(t.phase, o)| { StepTally(s, step, o); }
  }

  lemma {:induction false} RunKeepsInv(s: State, steps: seq<Step>, t: State)
    requires Inv(s) && Runs(s, steps, t)
    ensures Inv(t)
    decreases |steps|
  {
    if steps != [] {
      StepKeepsInv(s, steps[0]);
      RunKeepsInv(Next(s, steps[0]), steps[1..], t);
    }
  }

  lemma InitInv()
    ensures Inv(INIT)
  {
    forall o: Outcome ensures INIT.counters.Get(o) == |Tally(INIT.phase, o)| {
      assert Tally(INIT.phase, o) == {};
    }
  }

  // ---- what every interleaving keeps ---------------------------------------

  lemma FinishedSplit(phase: map<EventId, Phase>)
    ensures |Finished(phase)| ==
            |Tally(phase, PersistedNew)| + |Tally(phase, DuplicateAck)| + |Tally(phase, RetryRecovery)|
            + |Tally(phase, LostAfterRetries)| + |Tally(phase, PermanentFailure)|
  {
    var a, b := Tally(phase, PersistedNew), Tally(phase, DuplicateAck);
    var c, d := Tally(phase, RetryRecovery), Tally(phase, LostAfterRetries);
    var e := Tally(phase, PermanentFailure);
    forall id | id in Finished(phase) ensures id in a + b + c + d + e {
      match CountedAs(phase[id]).value { case PersistedNew => case _ => }
    }
    assert Finished(phase) == a + b + c + d + e;
    assert |a + b| == |a| + |b|;
    assert |a + b + c| == |a + b| + |c|;
    assert |a + b + c + d| == |a + b + c| + |d|;
    assert |a + b + c + d + e| == |a + b + c + d| + |e|;
  }

  /** In every state any interleaving can reach: no event has two rows, the five
      counters sum to the persists that have been counted, the lost counter
      covers the buffered rows, and the stored rows cover every claim of
      success. */
  lemma EveryInterleaving(steps: seq<Step>, s: State)
    requires Runs(INIT, steps, s)
    ensures NoDup(s.rows)
    ensures s.counters.Sum() == |Finished(s.phase)|
    ensures |s.buffer| <= s.counters.lostAfterRetries
    ensures s.counters.persistedNew + s.counters.retryRecovery + s.counters.duplicateAck <= |s.rows|
    ensures forall o: Outcome :: s.counters.Get(o) >= 0
  {
    InitInv();
    RunKeepsInv(INIT, steps, s);
    FinishedSplit(s.phase);
    forall o: Outcome ensures s.counters.Get(o) == |Tally(s.phase, o)| {}
    assert forall o: Outcome :: s.counters.Get(o) == |Tally(s.phase, o)|;
    assert s.counters.Get(PersistedNew) == s.counters.persistedNew;
    assert s.counters.Get(DuplicateAck) == s.counters.duplicateAck;
    assert s.counters.Get(RetryRecovery) == s.counters.retryRecovery;
    assert s.counters.Get(LostAfterRetries) == s.counters.lostAfterRetries;
    assert s.counters.Get(PermanentFailure) == s.counters.permanentFailure;
    BufferCovered(s);
    ClaimsCovered(s);
  }

  lemma BufferCovered(s: State)
    requires Inv(s)
    ensures |s.buffer| <= |Tally(s.phase, LostAfterRetries)|
  {
    var waiting := set id | id in s.buffer;
    NoDupSize(s.buffer);
    forall id | id in waiting ensures id in Tally(s.phase, LostAfterRetries) { assert PhaseOk(s, id); }
    SubsetSize(waiting, Tally(s.phase, LostAfterRetries));
  }

  lemma ClaimsCovered(s: State)
    requires Inv(s)
    ensures |Tally(s.phase, PersistedNew)| + |Tally(s.phase, RetryRecovery)| + |Tally(s.phase, DuplicateAck)|
            <= |s.rows|
  {
    var stored := set id | id in s.rows;
    NoDupSize(s.rows);
    TallyStored(s, PersistedNew);
    TallyStored(s, RetryRecovery);
    TallyStored(s, DuplicateAck);
    ThreeDisjoint(Tally(s.phase, PersistedNew), Tally(s.phase, RetryRecovery), Tally(s.phase, DuplicateAck), stored);
  }

  lemma TallyStored(s: State, o: Outcome)
    requires Inv(s) && Success(o)
    ensures forall id | id in Tally(s.phase, o) :: id in s.rows
  {
    forall id | id in Tally(s.phase, o) ensures id in s.rows { assert PhaseOk(s, id); }
  }

  lemma ThreeDisjoint<T>(a: set<T>, b: set<T>, c: set<T>, whole: set<T>)
    requires a <= whole && b <= whole && c <= whole && a !! b && a !! c && b !! c
    ensures |a| + |b| + |c| <= |whole|
  {
    assert |a + b| == |a| + |b|;
    assert |a + b + c| == |a + b| + |c|;
    SubsetSize(a + b + c, whole);
  }

  /** All threads have returned: every event begun has been counted. */
  predicate Quiescent(s: State) {
    forall id | id in s.phase :: CountedAs(s.phase[id]) != None && !s.phase[id].Flushing? && !s.phase[id].FlushDecided?
  }

  ghost function MissingRows(s: State): set<EventId> {
    set id | id in s.phase && id !in s.rows
  }

  ghost function Unclaimed(s: State): set<EventId> {
    set id | id in s.phase && !ClaimsStored(s.phase[id])
  }

  lemma FailuresCoverMissing(s: State)
    requires Inv(s)
    ensures MissingRows(s) <= Unclaimed(s)
  {
    forall id | id in MissingRows(s) ensures id in Unclaimed(s) { assert PhaseOk(s, id); }
  }

  lemma FailuresAreUnclaimed(s: State)
    requires Inv(s) && Quiescent(s)
    ensures s.counters.PersistFailures() == |Unclaimed(s)| && MissingRows(s) <= Unclaimed(s)
  {
    var lost, refused := Tally(s.phase, LostAfterRetries), Tally(s.phase, PermanentFailure);
    assert s.counters.Get(LostAfterRetries) == |lost| && s.counters.Get(PermanentFailure) == |refused|;
    forall id | id in s.phase ensures id in Unclaimed(s) <==> id in lost + refused {
      match s.phase[id] {
        case Counted(o) => match o { case LostAfterRetries => case PermanentFailure => case _ => }
        case _ =>
      }
    }
    assert Unclaimed(s) == lost + refused;
    assert |lost + refused| == |lost| + |refused|;
    FailuresCoverMissing(s);
  }

  /** When the scan is over, the failures reported are at least the events
      without a row. */
  lemma FailuresCoverMissingRows(steps: seq<Step>, s: State)
    requires Runs(INIT, steps, s) && Quiescent(s)
    ensures |MissingRows(s)| <= s.counters.PersistFailures()
  {
    InitInv();
    RunKeepsInv(INIT, steps, s);
    FailuresAreUnclaimed(s);
    SubsetSize(MissingRows(s), Unclaimed(s));
  }

  /** `persist_failures == 0` at the end of a scan means every rejection has
      exactly one row and the table holds nothing else. */
  lemma NoFailuresMeansExactlyOnce(steps: seq<Step>, s: State)
    requires Runs(INIT, steps, s) && Quiescent(s) && s.counters.PersistFailures() == 0
    ensures multiset(s.rows) == multiset(s.phase.Keys)
  {
    InitInv();
    RunKeepsInv(INIT, steps, s);
    FailuresCoverMissingRows(steps, s);
    assert MissingRows(s) == {};
    forall id: EventId ensures multiset(s.rows)[id] == multiset(s.phase.Keys)[id] {
      NoDupMultiplicity(s.rows, id);
      if id in s.phase { assert id !in MissingRows(s); }
    }
  }

  // ---- exactly when the failures reported are the rows missing -------------

  /** The fault of an insert of this event, in the retry loop or the flush. */
  predicate Inserts(step: Step, id: EventId) {
    (step.Attempt? || step.FlushAttempt?) && step.id == id
  }

  predicate Committed(steps: seq<Step>, id: EventId) {
    exists k | 0 <= k < |steps| :: Inserts(steps[k], id) && Commits(steps[k].fault)
  }

  /** Some insert of it was answered as one should be. */
  predicate Acknowledged(steps: seq<Step>, id: EventId) {
    exists k | 0 <= k < |steps| :: Inserts(steps[k], id) && steps[k].fault.Clean?
  }

  predicate Claimed(s: State, id: EventId) {
    id in s.phase && ClaimsStored(s.phase[id])
  }

  lemma CommittedSplit(steps: seq<Step>, id: EventId)
    requires steps != []
    ensures Committed(steps, id) <==> (Inserts(steps[0], id) && Commits(steps[0].fault)) || Committed(steps[1..], id)
    ensures Acknowledged(steps, id) <==>
            (Inserts(steps[0], id) && steps[0].fault.Clean?) || Acknowledged(steps[1..], id)
  {
    var rest := steps[1..];
    if k :| 0 <= k < |rest| && Inserts(rest[k], id) && Commits(rest[k].fault) { assert steps[k + 1] == rest[k]; }
    if k :| 0 <= k < |rest| && Inserts(rest[k], id) && rest[k].fault.Clean? { assert steps[k + 1] == rest[k]; }
    if k :| 0 < k < |steps| && Inserts(steps[k], id) && Commits(steps[k].fault) { assert rest[k - 1] == steps[k]; }
    if k :| 0 < k < |steps| && Inserts(steps[k], id) && steps[k].fault.Clean? { assert rest[k - 1] == steps[k]; }
  }

  lemma StepStores(s: State, step: Step, id: EventId)
    requires Enabled(s, step)
    ensures id in Next(s, step).rows <==> id in s.rows || (Inserts(step, id) && Commits(step.fault))
  {
  }

  lemma StepClaims(s: State, step: Step, id: EventId)
    requires Enabled(s, step)
    ensures Claimed(Next(s, step), id) <==> Claimed(s, id) || (Inserts(step, id) && step.fault.Clean?)
  {
  }

  lemma {:induction false} RowsAreCommits(s: State, steps: seq<Step>, t: State, id: EventId)
    requires Runs(s, steps, t)
    ensures id in t.rows <==> id in s.rows || Committed(steps, id)
    ensures Claimed(t, id) <==> Claimed(s, id) || Acknowledged(steps, id)
    decreases |steps|
  {
    if steps != [] {
      StepStores(s, steps[0], id);
      StepClaims(s, steps[0], id);
      RowsAreCommits(Next(s, steps[0]), steps[1..], t, id);
      CommittedSplit(steps, id);
    }
  }

  lemma NoneUnclaimedIff(s: State)
    requires Inv(s)
    ensures MissingRows(s) == Unclaimed(s) <==> forall id | id in s.rows :: Claimed(s, id)
  {
    if MissingRows(s) == Unclaimed(s) {
      forall id | id in s.rows ensures Claimed(s, id) {
        assert id in s.phase && id !in MissingRows(s);
      }
    } else {
      FailuresCoverMissing(s);
      var id :| id in Unclaimed(s) && id !in MissingRows(s);
      assert id in s.rows && !Claimed(s, id);
    }
  }

  /** When the scan is over, the failures reported are exactly the events without
      a row if and only if every event whose row some insert committed also had
      an insert answered cleanly: read off the link's behaviour alone. */
  lemma FailuresExactIff(steps: seq<Step>, s: State)
    requires Runs(INIT, steps, s) && Quiescent(s)
    ensures s.counters.PersistFailures() == |MissingRows(s)| <==>
            forall id :: Committed(steps, id) ==> Acknowledged(steps, id)
  {
    InitInv();
    RunKeepsInv(INIT, steps, s);
    FailuresAreUnclaimed(s);
    SubsetSameSize(MissingRows(s), Unclaimed(s));
    NoneUnclaimedIff(s);
    forall id
      ensures (id in s.rows ==> Claimed(s, id)) <==> (Committed(steps, id) ==> Acknowledged(steps, id))
    {
      RowsAreCommits(INIT, steps, s, id);
    }
  }

  /** Event 7 alone: its row, its phase. */
  function Lone(rows: seq<EventId>, phase: Phase): State {
    State(rows, ZERO, [], map[7 := phase])
  }

  lemma LostReplySteps()
    ensures Next(INIT, Begin(7)) == Lone([], Trying(0))
    ensures Next(Lone([], Trying(0)), Attempt(7, LostAfter)) == Lone([7], Trying(1))
    ensures Next(Lone([7], Trying(1)), Attempt(7, LostBefore)) == Lone([7], Trying(2))
    ensures Next(Lone([7], Trying(2)), Attempt(7, LostBefore)) == Lone([7], Decided(LostAfterRetries))
  {
  }

  /** The converse fails: a row whose three replies were all lost is stored, yet
      is reported as a failure until a flush sees the duplicate. */
  lemma FailureReportedForStoredRow()
    ensures exists steps, s ::
              Runs(INIT, steps, s) && Quiescent(s) && s.rows == [7] && s.counters.PersistFailures() == 1
  {
    LostReplySteps();
    var decided := Lone([7], Decided(LostAfterRetries));
    RunsExtend(INIT, [], INIT, Begin(7));
    RunsExtend(INIT, [] + [Begin(7)], Lone([], Trying(0)), Attempt(7, LostAfter));
    var steps := [] + [Begin(7)] + [Attempt(7, LostAfter)];
    RunsExtend(INIT, steps, Lone([7], Trying(1)), Attempt(7, LostBefore));
    RunsExtend(INIT, steps + [Attempt(7, LostBefore)], Lone([7], Trying(2)), Attempt(7, LostBefore));
    var steps' := steps + [Attempt(7, LostBefore)] + [Attempt(7, LostBefore)];
    RunsExtend(INIT, steps', decided, Count(7));
    var s := Next(decided, Count(7));
    assert Quiescent(s) && s.rows == [7];
  }

  // ---- the tracker ---------------------------------------------------------

  /** The rejection table and its unique index on the event id. */
  class RejectionTable {
    var rows: seq<EventId>

    constructor ()
      ensures rows == []
    {
      rows := [];
    }

    method Insert(id: EventId, fault: Fault) returns (reply: Reply)
      modifies this
      ensures (rows, reply) == InsertRow(old(rows), id, fault)
    {
      var present := id in rows;
      if Commits(fault) && !present {
        rows := rows + [id];
      }
      match fault {
        case Clean => reply := if present then DuplicateKey else Stored;
        case LostBefore => reply := Disconnected;
        case LostAfter => reply := Disconnected;
        case Refused => reply := Permanent;
        case RefusedAfter => reply := Permanent;
      }
    }
  }

  /** What the retry loop leaves in the table, and how it classifies the event. */
  function Persisted(rows: seq<EventId>, id: EventId, faults: seq<Fault>, k: nat): (seq<EventId>, Outcome)
    requires k <= |faults| == MAX_ATTEMPTS
    decreases MAX_ATTEMPTS - k
  {
    if k == MAX_ATTEMPTS then (rows, LostAfterRetries)
    else
      var (rows', reply) := InsertRow(rows, id, faults[k]);
      match AfterReply(reply, k)
      case Decided(o) => (rows', o)
      case _ => Persisted(rows', id, faults, k + 1)
  }

  function FlushVerdict(rows: seq<EventId>, id: EventId, fault: Fault): Outcome {
    if !fault.Clean? then LostAfterRetries else if id in rows then DuplicateAck else RetryRecovery
  }

  /** What a flush makes of a buffered row: with a clean reply the row is there, and
      one that was missing moves from lost to recovered, one that had been stored
      all along to the duplicates; any other reply leaves it lost. */
  lemma FlushMeaning(s: State, id: EventId, fault: Fault) returns (t: State)
    requires Enabled(s, FlushAttempt(id, fault))
    ensures fault.Clean? ==> Runs(s, [FlushAttempt(id, fault), FlushCount(id)], t) && id in t.rows
    ensures !fault.Clean? ==> Runs(s, [FlushAttempt(id, fault)], t)
    ensures !fault.Clean? ==> t.counters == s.counters && t.phase == s.phase[id := Counted(LostAfterRetries)]
    ensures fault.Clean? ==>
              && t.phase == s.phase[id := Counted(if id in s.rows then DuplicateAck else RetryRecovery)]
              && t.counters == s.counters.(lostAfterRetries := s.counters.lostAfterRetries - 1,
                                           retryRecovery := t.counters.retryRecovery,
                                           duplicateAck := t.counters.duplicateAck)
              && t.counters.retryRecovery == s.counters.retryRecovery + (if id in s.rows then 0 else 1)
              && t.counters.duplicateAck == s.counters.duplicateAck + (if id in s.rows then 1 else 0)
  {
    var tried := Next(s, FlushAttempt(id, fault));
    t := tried;
    RunsExtend(s, [], s, FlushAttempt(id, fault));
    assert [] + [FlushAttempt(id, fault)] == [FlushAttempt(id, fault)];
    if fault.Clean? {
      RunsExtend(s, [FlushAttempt(id, fault)], tried, FlushCount(id));
      assert [FlushAttempt(id, fault)] + [FlushCount(id)] == [FlushAttempt(id, fault), FlushCount(id)];
      t := Next(tried, FlushCount(id));
    }
  }

  /** The reply never arrives. */
  predicate Silent(fault: Fault) {
    fault.LostBefore? || fault.LostAfter?
  }

  /** Attempt `k` is made, and answered. */
  predicate AnsweredAt(faults: seq<Fault>, k: nat)
    requires k < |faults|
  {
    !Silent(faults[k]) && forall i | 0 <= i < k :: Silent(faults[i])
  }

  /** The classification of a fresh event, read off the link's behaviour alone:
      the first answered attempt decides, and it is an acknowledged duplicate
      exactly when an earlier attempt committed and lost its reply. */
  lemma PersistedMeaning(rows: seq<EventId>, id: EventId, faults: seq<Fault>)
    requires |faults| == MAX_ATTEMPTS && id !in rows
    ensures var o := Persisted(rows, id, faults, 0).1;
            && (o.PersistedNew? <==> faults[0].Clean?)
            && (o.LostAfterRetries? <==> forall i | 0 <= i < MAX_ATTEMPTS :: Silent(faults[i]))
            && (o.PermanentFailure? <==>
                  exists k | 0 <= k < MAX_ATTEMPTS :: AnsweredAt(faults, k) && !faults[k].Clean?)
            && (o.DuplicateAck? <==>
                  exists k | 0 <= k < MAX_ATTEMPTS ::
                    AnsweredAt(faults, k) && faults[k].Clean? && exists i | 0 <= i < k :: faults[i].LostAfter?)
  {
    var f0, f1, f2 := faults[0], faults[1], faults[2];
    assert faults == [f0, f1, f2];
    if !Silent(f0) {
      assert AnsweredAt(faults, 0);
    } else if !Silent(f1) {
      assert AnsweredAt(faults, 1);
    } else if !Silent(f2) {
      assert AnsweredAt(faults, 2);
    }
  }

  /** And the row is stored exactly when some attempt that was made commits. */
  lemma PersistedStores(rows: seq<EventId>, id: EventId, faults: seq<Fault>)
    requires |faults| == MAX_ATTEMPTS && id !in rows
    ensures Persisted(rows, id, faults, 0).0 ==
            (if exists k | 0 <= k < MAX_ATTEMPTS ::
                  Commits(faults[k]) && forall i | 0 <= i < k :: Silent(faults[i])
             then rows + [id] else rows)
  {
    var f0, f1, f2 := faults[0], faults[1], faults[2];
    assert faults == [f0, f1, f2];
    if !Silent(f0) {
      assert AnsweredAt(faults, 0);
    } else if !Silent(f1) {
      assert AnsweredAt(faults, 1);
    } else if !Silent(f2) {
      assert AnsweredAt(faults, 2);
    }
  }

  lemma BufferedRows(steps: seq<Step>, s: State)
    requires Runs(INIT, steps, s)
    ensures NoDup(s.buffer)
    ensures forall id | id in s.buffer :: id in s.phase && s.phase[id].Buffered?
  {
    InitInv();
    RunKeepsInv(INIT, steps, s);
    forall id | id in s.buffer ensures s.phase[id].Buffered? { assert PhaseOk(s, id); }
  }

  /** The thread-safe tracker.  Its methods perform the atomic actions above, so
      every state it reaches is a state of the protocol: `history` is the run. */
  class RejectionStats {
    const table: RejectionTable
    var persistedNew: int
    var duplicateAck: int
    var retryRecovery: int
    var lostAfterRetries: int
    var permanentFailure: int
    var lostPayloads: seq<EventId>
    ghost var phase: map<EventId, Phase>
    ghost var history: seq<Step>

    ghost function Abs(): State
      reads this, table
    {
      State(table.rows, Counters(persistedNew, duplicateAck, retryRecovery, lostAfterRetries, permanentFailure),
            lostPayloads, phase)
    }

    ghost predicate Valid()
      reads this, table
    {
      Runs(INIT, history, Abs())
    }

    constructor (table: RejectionTable)
      requires table.rows == []
      ensures this.table == table && Abs() == INIT && Valid()
    {
      this.table := table;
      persistedNew, duplicateAck, retryRecovery, lostAfterRetries, permanentFailure := 0, 0, 0, 0, 0;
      lostPayloads, phase, history := [], map[], [];
    }

    /** One section under the counter lock. */
    method RecordPersistOutcome(outcome: Outcome, id: EventId)
      requires Valid() && id in phase && phase[id] == Decided(outcome)
      modifies this
      ensures Valid() && Abs() == Next(old(Abs()), Count(id)) && history == old(history) + [Count(id)]
      ensures persistedNew == old(persistedNew) + (if outcome == PersistedNew then 1 else 0)
      ensures duplicateAck == old(duplicateAck) + (if outcome == DuplicateAck then 1 else 0)
      ensures retryRecovery == old(retryRecovery) + (if outcome == RetryRecovery then 1 else 0)
      ensures lostAfterRetries == old(lostAfterRetries) + (if outcome == LostAfterRetries then 1 else 0)
      ensures permanentFailure == old(permanentFailure) + (if outcome == PermanentFailure then 1 else 0)
    {
      RunsExtend(INIT, history, Abs(), Count(id));
      match outcome {
        case PersistedNew => persistedNew := persistedNew + 1;
        case DuplicateAck => duplicateAck := duplicateAck + 1;
        case RetryRecovery => retryRecovery := retryRecovery + 1;
        case PermanentFailure => permanentFailure := permanentFailure + 1;
        case LostAfterRetries =>
          lostAfterRetries := lostAfterRetries + 1;
          lostPayloads := lostPayloads + [id];
      }
      phase := phase[id := if outcome.LostAfterRetries? then Buffered else Counted(outcome)];
      history := history + [Count(id)];
    }

    /** One insert on the current client. */
    method TryInsert(id: EventId, fault: Fault) returns (reply: Reply)
      requires Valid() && id in phase && phase[id].Trying?
      modifies table, this`phase, this`history
      ensures Valid() && Abs() == Next(old(Abs()), Attempt(id, fault))
      ensures (table.rows, reply) == InsertRow(old(table.rows), id, fault)
      ensures history == old(history) + [Attempt(id, fault)]
    {
      RunsExtend(INIT, history, Abs(), Attempt(id, fault));
      ghost var k := phase[id].attempt;
      reply := table.Insert(id, fault);
      phase := phase[id := AfterReply(reply, k)];
      history := history + [Attempt(id, fault)];
    }

    /** The row could not be built: a permanent failure, counted on the spot. */
    method CountBuildFailure(id: EventId)
      requires Valid() && id !in phase
      modifies this
      ensures Valid() && Abs() == Next(old(Abs()), BuildFails(id)) && history == old(history) + [BuildFails(id)]
    {
      RunsExtend(INIT, history, Abs(), BuildFails(id));
      permanentFailure := permanentFailure + 1;
      phase := phase[id := Counted(PermanentFailure)];
      history := history + [BuildFails(id)];
    }

    /** One rejection: built or not, then the retry loop. */
    method PersistRejection(id: EventId, built: bool, faults: seq<Fault>) returns (outcome: Outcome)
      requires Valid() && id !in phase && |faults| == MAX_ATTEMPTS
      modifies this, table
      ensures Valid() && old(history) <= history
      ensures (table.rows, outcome) ==
              if built then Persisted(old(table.rows), id, faults, 0) else (old(table.rows), PermanentFailure)
      ensures phase == old(phase)[id := if outcome.LostAfterRetries? then Buffered else Counted(outcome)]
      ensures Abs().counters == old(Abs().counters).Add(outcome, 1)
      ensures lostPayloads == old(lostPayloads) + (if outcome.LostAfterRetries? then [id] else [])
      ensures built && faults[0].Clean? && id !in old(table.rows) ==>
                && outcome == PersistedNew && persistedNew == old(persistedNew) + 1
                && duplicateAck == old(duplicateAck) && retryRecovery == old(retryRecovery)
                && lostAfterRetries == old(lostAfterRetries) && permanentFailure == old(permanentFailure)
    {
      if !built {
        CountBuildFailure(id);
        return PermanentFailure;
      }
      outcome := InsertWithRetries(id, faults);
    }

    ghost method BeginEvent(id: EventId)
      requires Valid() && id !in phase
      modifies this`phase, this`history
      ensures Valid() && phase == old(phase)[id := Trying(0)] && history == old(history) + [Begin(id)]
    {
      RunsExtend(INIT, history, Abs(), Begin(id));
      phase := phase[id := Trying(0)];
      history := history + [Begin(id)];
    }

    /** The retry loop: `faults[k]` is what the link does to attempt `k`. */
    method InsertWithRetries(id: EventId, faults: seq<Fault>) returns (outcome: Outcome)
      requires Valid() && id !in phase && |faults| == MAX_ATTEMPTS
      modifies this, table
      ensures Valid() && old(history) <= history
      ensures (table.rows, outcome) == Persisted(old(table.rows), id, faults, 0)
      ensures phase == old(phase)[id := if outcome.LostAfterRetries? then Buffered else Counted(outcome)]
      ensures Abs().counters == old(Abs().counters).Add(outcome, 1)
      ensures lostPayloads == old(lostPayloads) + (if outcome.LostAfterRetries? then [id] else [])
    {
      BeginEvent(id);
      outcome := AttemptUntilDecided(id, faults);
      RecordPersistOutcome(outcome, id);
    }

    /** The loop itself: attempts until one decides or there are none left. */
    method AttemptUntilDecided(id: EventId, faults: seq<Fault>) returns (outcome: Outcome)
      requires Valid() && id in phase && phase[id] == Trying(0) && |faults| == MAX_ATTEMPTS
      modifies table, this`phase, this`history
      ensures Valid() && old(history) <= history
      ensures (table.rows, outcome) == Persisted(old(table.rows), id, faults, 0)
      ensures phase == old(phase)[id := Decided(outcome)]
    {
      ghost var rows, before := table.rows, phase;
      var decided: Option<Outcome> := None;
      var attempt := 0;
      while attempt < MAX_ATTEMPTS && decided.None?
        invariant 0 <= attempt <= MAX_ATTEMPTS
        invariant Valid() && old(history) <= history
        invariant id in phase && phase == before[id := phase[id]]
        invariant phase[id] == (if decided.Some? then Decided(decided.value)
                                else if attempt < MAX_ATTEMPTS then Trying(attempt)
                                else Decided(LostAfterRetries))
        invariant Persisted(rows, id, faults, 0) ==
                  (if decided.Some? then (table.rows, decided.value) else Persisted(table.rows, id, faults, attempt))
        decreases MAX_ATTEMPTS - attempt, decided.None?
      {
        var reply := TryInsert(id, faults[attempt]);
        match reply {
          case Stored => decided := Some(if attempt > 0 then RetryRecovery else PersistedNew);
          case DuplicateKey => decided := Some(DuplicateAck);
          case Permanent => decided := Some(PermanentFailure);
          case Disconnected => attempt := attempt + 1;
        }
      }
      outcome := if decided.Some? then decided.value else LostAfterRetries;
    }

    /** Under the counter lock: a lost row turned out to be stored. */
    method Reclassify(id: EventId, reply: Reply)
      requires Valid() && id in phase && phase[id] == AfterFlushReply(reply) && (reply.Stored? || reply.DuplicateKey?)
      modifies this
      ensures Valid() && history == old(history) + [FlushCount(id)] && lostPayloads == old(lostPayloads)
      ensures var o := if reply.Stored? then RetryRecovery else DuplicateAck;
              && phase == old(phase)[id := Counted(o)]
              && Abs().counters == old(Abs().counters).Add(LostAfterRetries, -1).Add(o, 1)
    {
      RunsExtend(INIT, history, Abs(), FlushCount(id));
      lostAfterRetries := lostAfterRetries - 1;
      if reply.Stored? { retryRecovery := retryRecovery + 1; } else { duplicateAck := duplicateAck + 1; }
      phase := phase[id := Counted(if reply.Stored? then RetryRecovery else DuplicateAck)];
      history := history + [FlushCount(id)];
    }

    /** One last attempt for a row taken from the buffer, and its reclassification. */
    method FlushOne(id: EventId, fault: Fault)
      requires Valid() && id in phase && phase[id].Flushing?
      modifies this, table
      ensures Valid() && old(history) <= history
      ensures table.rows == InsertRow(old(table.rows), id, fault).0
      ensures phase == old(phase)[id := Counted(FlushVerdict(old(table.rows), id, fault))]
      ensures Abs().counters ==
              old(Abs().counters).Add(LostAfterRetries, -1).Add(FlushVerdict(old(table.rows), id, fault), 1)
      ensures var (back, again) := (fault.Clean? && id !in old(table.rows), fault.Clean? && id in old(table.rows));
              && retryRecovery == old(retryRecovery) + (if back then 1 else 0)
              && duplicateAck == old(duplicateAck) + (if again then 1 else 0)
              && lostAfterRetries == old(lostAfterRetries) - (if fault.Clean? then 1 else 0)
              && persistedNew == old(persistedNew) && permanentFailure == old(permanentFailure)
      ensures lostPayloads == old(lostPayloads)
    {
      RunsExtend(INIT, history, Abs(), FlushAttempt(id, fault));
      var reply := table.Insert(id, fault);
      phase := phase[id := AfterFlushReply(reply)];
      history := history + [FlushAttempt(id, fault)];
      if reply.Stored? || reply.DuplicateKey? { Reclassify(id, reply); }
    }

    /** Takes the whole buffer, under the counter lock. */
    method TakeBuffer() returns (pending: seq<EventId>)
      requires Valid()
      modifies this
      ensures Valid() && history == old(history) + [TakePending]
      ensures pending == old(lostPayloads) && lostPayloads == [] && phase == TakeAll(old(phase))
      ensures Abs().counters == old(Abs()).counters
    {
      RunsExtend(INIT, history, Abs(), TakePending);
      pending, lostPayloads := lostPayloads, [];
      phase := TakeAll(phase);
      history := history + [TakePending];
    }

    /** The final flush: takes the whole buffer, then makes one attempt per row. */
    method Flush(faults: seq<Fault>)
      requires Valid() && |faults| == |lostPayloads|
      modifies this, table
      ensures Valid() && old(history) <= history
      ensures lostPayloads == []
      ensures Untouched(phase, TakeAll(old(phase)), old(lostPayloads))
      ensures Verdicts(phase, old(table.rows), old(lostPayloads), faults, |faults|)
    {
      ghost var start := Abs();
      BufferedRows(history, start);
      var pending := TakeBuffer();
      ghost var taken := phase;
      for k := 0 to |pending|
        invariant Valid() && old(history) <= history && lostPayloads == []
        invariant Untouched(phase, taken, pending[..k])
        invariant SameElsewhere(table.rows, start.rows, pending[..k])
        invariant Verdicts(phase, start.rows, pending, faults, k)
      {
        ghost var (rows, phases) := (table.rows, phase);
        assert pending[k] !in pending[..k];
        FlushOne(pending[k], faults[k]);
        FlushedOneMore(phases, taken, rows, start.rows, pending, faults, k);
        assert InsertRow(rows, pending[k], faults[k]).0 == table.rows;
      }
      assert pending[..|pending|] == pending;
    }
  }

  /** Rows outside `done` are in the phase they were. */
  ghost predicate Untouched(now: map<EventId, Phase>, before: map<EventId, Phase>, done: seq<EventId>) {
    now.Keys == before.Keys && forall id | id in before && id !in done :: now[id] == before[id]
  }

  ghost predicate SameElsewhere(rows: seq<EventId>, before: seq<EventId>, done: seq<EventId>) {
    forall id | id !in done :: id in rows <==> id in before
  }

  /** Each of the first `k` pending rows was counted as its one attempt found it. */
  ghost predicate Verdicts(
    phase: map<EventId, Phase>, rows: seq<EventId>, pending: seq<EventId>, faults: seq<Fault>, k: nat)
    requires k <= |pending| == |faults|
  {
    forall i | 0 <= i < k ::
      pending[i] in phase && phase[pending[i]] == Counted(FlushVerdict(rows, pending[i], faults[i]))
  }

  lemma FlushedOneMore(
    phase: map<EventId, Phase>, taken: map<EventId, Phase>, rows: seq<EventId>, rows0: seq<EventId>,
    pending: seq<EventId>, faults: seq<Fault>, k: nat)
    requires k < |pending| == |faults| && pending[k] in phase && pending[k] !in pending[..k]
    requires Untouched(phase, taken, pending[..k]) && SameElsewhere(rows, rows0, pending[..k])
    requires Verdicts(phase, rows0, pending, faults, k)
    ensures var (id, fault) := (pending[k], faults[k]);
            var after := phase[id := Counted(FlushVerdict(rows, id, fault))];
            && Untouched(after, taken, pending[..k + 1])
            && SameElsewhere(InsertRow(rows, id, fault).0, rows0, pending[..k + 1])
            && Verdicts(after, rows0, pending, faults, k + 1)
  {
    var (id, fault) := (pending[k], faults[k]);
    assert pending[..k + 1] == pending[..k] + [id];
    assert FlushVerdict(rows, id, fault) == FlushVerdict(rows0, id, fault);
    forall i | 0 <= i < k ensures pending[i] != id { assert pending[i] in pending[..k]; }
  }
}
