/** Job rows, the gates and keys of a dispatch, and the dispatch itself with
    nobody in between. */
module JobDispatch {
  import opened Common

  datatype Status =
    | Queued | Running | Succeeded | PartialResult | Failed
    | FailedRetryable | DeadLettered | Cancelled

  type RowId = nat

  datatype Row = Row(
    name: string, key: string, status: Status, attempt: nat, maxAttempts: nat, finishedAt: Option<int>)

  // ---- gates ---------------------------------------------------------------

  datatype Mode = Paper | MicroLive | Live | UnknownMode

  datatype Ops = Ops(paused: bool, mode: Mode)

  datatype Readiness = Readiness(paperReady: bool, overallReady: bool)

  datatype Decision = Decision(allowed: bool, manualApproval: bool)

  function GoLiveGate(ops: Ops, user: Readiness): Decision {
    if ops.paused then Decision(false, false)
    else match ops.mode
      case Paper => Decision(false, false)
      case MicroLive => if user.paperReady then Decision(true, true) else Decision(false, false)
      case Live => Decision(user.overallReady, false)
      case UnknownMode => Decision(false, false)
  }

  const LIVE_PREFIX := "live_"
  const LIVE_NAMES := {"live_order_submit", "live_order_cancel", "live_order_retry"}

  predicate RequiresLivePrivileges(name: string) {
    LIVE_PREFIX <= name || name in LIVE_NAMES
  }

  /** The explicit names add nothing to the prefix. */
  lemma LivePrefixDecides(name: string)
    ensures RequiresLivePrivileges(name) <==> |name| >= 5 && name[..5] == LIVE_PREFIX
  {
    assert name in LIVE_NAMES ==> name[..5] == LIVE_PREFIX;
  }

  /** Missing, empty and "all" are no user. */
  function ExtractUserId(user: Option<string>): Option<string> {
    if user.None? || user.value == "" || user.value == "all" then None else user
  }

  datatype Request = Request(
    name: string, key: string, user: Option<string>, readiness: Readiness,
    force: bool, nonce: string)

  function ForcedKey(key: string, nonce: string): string {
    key + "-force-" + nonce
  }

  function EffectiveKey(r: Request): string {
    if r.force then ForcedKey(r.key, r.nonce) else r.key
  }

  /** The go-live gate, which only live jobs meet. */
  predicate GateOpen(ops: Ops, r: Request) {
    RequiresLivePrivileges(r.name) ==>
      && ExtractUserId(r.user).Some?
      && GoLiveGate(ops, r.readiness).allowed
      && !GoLiveGate(ops, r.readiness).manualApproval
  }

  predicate GatesPass(ops: Ops, r: Request) {
    !ops.paused && GateOpen(ops, r)
  }

  predicate Terminal(s: Status) {
    s in {Succeeded, PartialResult, Failed, FailedRetryable, DeadLettered, Cancelled}
  }

  /** Forced keys with nonces of equal length (as generated ones have) collide
      only if both the key and the nonce agree. */
  lemma ForcedKeysDistinct(k1: string, n1: string, k2: string, n2: string)
    requires |n1| == |n2|
    ensures ForcedKey(k1, n1) == ForcedKey(k2, n2) <==> k1 == k2 && n1 == n2
  {
    var a, b := ForcedKey(k1, n1), ForcedKey(k2, n2);
    if a == b {
      assert |k1| == |k2|;
      assert a[..|k1|] == k1 && b[..|k2|] == k2;
      assert a[|k1| + 7..] == n1 && b[|k2| + 7..] == n2;
    }
  }

  /** With caller-chosen nonces they can collide. */
  lemma ForcedKeysCanCollide()
    ensures ForcedKey("k-force-a", "b") == ForcedKey("k", "a-force-b")
  {
    assert ("k-force-a" + "-force-") + "b" == ("k" + "-force-") + "a-force-b";
  }

  // ---- the row store -------------------------------------------------------

  const DEFAULT_MAX_ATTEMPTS := 5

  function Find(rows: seq<Row>, name: string, key: string): Option<RowId>
    ensures var f := Find(rows, name, key);
            && (f.Some? ==> f.value < |rows| && rows[f.value].name == name && rows[f.value].key == key)
            && (f.None? ==> forall i | 0 <= i < |rows| :: rows[i].name != name || rows[i].key != key)
  {
    if rows == [] then None
    else
      var last := |rows| - 1;
      if rows[last].name == name && rows[last].key == key then Some(last)
      else Find(rows[..last], name, key)
  }

  /** Returns the row of a (name, key) pair, inserting it if there is none. */
  function CreatedOrFound(rows: seq<Row>, name: string, key: string, status: Status): (seq<Row>, RowId) {
    var f := Find(rows, name, key);
    if f.Some? then (rows, f.value)
    else (rows + [Row(name, key, status, 0, DEFAULT_MAX_ATTEMPTS, None)], |rows|)
  }

  ghost predicate UniqueKeys(rows: seq<Row>) {
    forall i, j | 0 <= i < j < |rows| :: rows[i].name != rows[j].name || rows[i].key != rows[j].key
  }

  // ---- a dispatch with nobody in between -----------------------------------

  /** The rows afterwards, and the row pushed, if one is. */
  function Dispatched(rows: seq<Row>, ops: Ops, r: Request): (seq<Row>, Option<RowId>) {
    if !GatesPass(ops, r) then (CreatedOrFound(rows, r.name, r.key, Cancelled).0, None)
    else
      var (rows', id) := CreatedOrFound(rows, r.name, EffectiveKey(r), Queued);
      (rows', if Terminal(rows'[id].status) then None else Some(id))
  }

  /** What it takes: paper and micro-live modes never let a live job through. */
  lemma GateOpenIff(ops: Ops, r: Request)
    ensures !ops.paused ==>
              (GateOpen(ops, r) <==>
                 (RequiresLivePrivileges(r.name) ==>
                    ops.mode.Live? && r.readiness.overallReady
                    && r.user.Some? && r.user.value != "" && r.user.value != "all"))
  {
  }

  lemma NewRowIsLast(rows: seq<Row>, name: string, key: string, status: Status)
    ensures var ((rows', id), f) := (CreatedOrFound(rows, name, key, status), Find(rows, name, key));
            && id < |rows'| && id == (if f.Some? then f.value else |rows|)
            && rows'[id].status == if f.Some? then rows[f.value].status else status
  {
  }

  /** A dispatch pushes exactly when trading is not paused, a live job has a
      specific user whose gate is fully open, and the row of its key is absent
      or not terminal; and then it pushes that row. */
  lemma DispatchPushesIff(rows: seq<Row>, ops: Ops, r: Request)
    ensures var pushed := Dispatched(rows, ops, r).1;
            var f := Find(rows, r.name, if r.force then r.key + "-force-" + r.nonce else r.key);
            && (pushed.Some? <==>
                  && !ops.paused
                  && (RequiresLivePrivileges(r.name) ==>
                        ops.mode.Live? && r.readiness.overallReady
                        && r.user.Some? && r.user.value != "" && r.user.value != "all")
                  && (f.Some? ==> rows[f.value].status.Queued? || rows[f.value].status.Running?))
            && (pushed.Some? ==> pushed.value == if f.Some? then f.value else |rows|)
  {
    GateOpenIff(ops, r);
    NewRowIsLast(rows, r.name, EffectiveKey(r), Queued);
  }

  /** A forced dispatch whose nonce is fresh changes no existing row: it adds
      one queued row and pushes it. */
  lemma FreshForceTouchesNothing(rows: seq<Row>, ops: Ops, r: Request)
    requires r.force && GatesPass(ops, r) && Find(rows, r.name, EffectiveKey(r)).None?
    ensures Dispatched(rows, ops, r) ==
            (rows + [Row(r.name, ForcedKey(r.key, r.nonce), Queued, 0, 5, None)], Some(|rows|))
  {
  }

  lemma FindsTheLast(rows: seq<Row>, row: Row)
    ensures Find(rows + [row], row.name, row.key) == Some(|rows|)
  {
  }

  /** A key that passes the gates and has no row is pushed, and pushed again when
      it is dispatched again before its row is terminal. */
  lemma FreshKeyIsPushed(rows: seq<Row>, ops: Ops, r: Request)
    requires GatesPass(ops, r) && Find(rows, r.name, EffectiveKey(r)).None?
    ensures var (rows', pushed) := Dispatched(rows, ops, r);
            && pushed == Some(|rows|) && |rows'| == |rows| + 1 && rows'[|rows|].status.Queued?
            && Dispatched(rows', ops, r) == (rows', Some(|rows|))
  {
    FindsTheLast(rows, Row(r.name, EffectiveKey(r), Queued, 0, DEFAULT_MAX_ATTEMPTS, None));
  }

  // ---- the code ------------------------------------------------------------

  datatype Response = Response(
    id: RowId, key: string, pushed: bool, skipped: bool, cancelledReason: string)

  /** The reason the gates give, in the order they are checked. */
  function CancelReason(ops: Ops, r: Request): string
    requires !GatesPass(ops, r)
  {
    if ops.paused then "global_ops_pause"
    else if ExtractUserId(r.user).Some? && GoLiveGate(ops, r.readiness).allowed then "manual_approval_required"
    else "go_live_gate"
  }

  /** What each reason means: a pause; a live job that has no user, or whose mode
      or readiness does not allow it; or one that is allowed only by hand. */
  lemma CancelReasonMeaning(ops: Ops, r: Request)
    requires !GatesPass(ops, r)
    ensures var user := r.user.Some? && r.user.value != "" && r.user.value != "all";
            var reason := CancelReason(ops, r);
            && (reason == "global_ops_pause" <==> ops.paused)
            && (reason == "manual_approval_required" <==>
                  !ops.paused && user && ops.mode.MicroLive? && r.readiness.paperReady)
            && (reason == "go_live_gate" <==>
                  !ops.paused
                  && (!user || ops.mode.Paper? || ops.mode.UnknownMode?
                      || (ops.mode.MicroLive? && !r.readiness.paperReady)
                      || (ops.mode.Live? && !r.readiness.overallReady)))
  {
  }

  class JobRunStore {
    var rows: seq<Row>

    method CreateOrGet(name: string, key: string, status: Status) returns (id: RowId)
      modifies this
      ensures (rows, id) == CreatedOrFound(old(rows), name, key, status)
      ensures id < |rows|
    {
      var f := Find(rows, name, key);
      if f.Some? { return f.value; }
      id := |rows|;
      rows := rows + [Row(name, key, status, 0, DEFAULT_MAX_ATTEMPTS, None)];
    }
  }

  class Dispatcher {
    const store: JobRunStore
    var pushes: seq<RowId>

    constructor (store: JobRunStore)
      ensures this.store == store && pushes == []
    {
      this.store, pushes := store, [];
    }

    /** Cancelled rows are made under the request's own key, before any force
        nonce is applied. */
    method EnqueueJobRun(ops: Ops, r: Request) returns (response: Response)
      modifies this`pushes, store
      ensures store.rows == Dispatched(old(store.rows), ops, r).0
      ensures var pushed := Dispatched(old(store.rows), ops, r).1;
              && response.pushed == pushed.Some? && (pushed.Some? ==> response.id == pushed.value)
              && pushes == old(pushes) + (if pushed.Some? then [response.id] else [])
      ensures response.id < |store.rows| && store.rows[response.id].name == r.name
      ensures store.rows[response.id].key == response.key
      ensures !GatesPass(ops, r) ==> response.cancelledReason == CancelReason(ops, r) && response.key == r.key
      ensures GatesPass(ops, r) ==> response.key == (if r.force then r.key + "-force-" + r.nonce else r.key)
      ensures GatesPass(ops, r) ==>
                (response.skipped <==>
                   !store.rows[response.id].status.Queued? && !store.rows[response.id].status.Running?)
    {
      var id: RowId;
      if ops.paused {
        id := store.CreateOrGet(r.name, r.key, Cancelled);
        return Response(id, r.key, false, false, "global_ops_pause");
      }
      if RequiresLivePrivileges(r.name) {
        var user := ExtractUserId(r.user);
        if user.None? {
          id := store.CreateOrGet(r.name, r.key, Cancelled);
          return Response(id, r.key, false, false, "go_live_gate");
        }
        var decision := GoLiveGate(ops, r.readiness);
        if !decision.allowed {
          id := store.CreateOrGet(r.name, r.key, Cancelled);
          return Response(id, r.key, false, false, "go_live_gate");
        }
        if decision.manualApproval {
          id := store.CreateOrGet(r.name, r.key, Cancelled);
          return Response(id, r.key, false, false, "manual_approval_required");
        }
      }
      var key := r.key;
      if r.force {
        key := ForcedKey(r.key, r.nonce);
      }
      id := store.CreateOrGet(r.name, key, Queued);
      if Terminal(store.rows[id].status) {
        return Response(id, key, false, true, "");
      }
      pushes := pushes + [id];
      response := Response(id, key, true, false, "");
    }
  }
}
