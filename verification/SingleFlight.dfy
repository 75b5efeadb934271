/** The double-checked single-flight read of one cache key: get, take the key's
    in-flight lock, get again, fetch, set.

    The in-flight lock is itself looked up in a registry that counts its users
    and drops the lock object when the last one leaves, so two threads only
    exclude each other if the registry never hands them two different lock
    objects at once.  The registry is part of the model for that reason. */
module SingleFlight {
  import opened Common

  type Tid = nat
  type LockId = nat
  /** A truthy result; an empty one is never cached and is modelled by `None`. */
  type Value = nat

  datatype PC =
    | Start
    | Missed
    | Waiting(lock: LockId)
    | Holding(lock: LockId)
    | Fetching(lock: LockId)
    | Storing(lock: LockId, value: Value)
    | Releasing(lock: LockId, result: Option<Value>)
    | Leaving(lock: LockId, result: Option<Value>)
    | Done(result: Option<Value>)
  {
    /** The thread is counted by the registry. */
    predicate Registered() {
      Waiting? || Holding? || Fetching? || Storing? || Releasing? || Leaving?
    }

    /** The thread is between acquiring and releasing the lock object. */
    predicate Inside() {
      Holding? || Fetching? || Storing? || Releasing?
    }

    function Answer(): Option<Value> {
      if Releasing? || Leaving? || Done? then result else None
    }
  }

  datatype Registry = NoLock | Live(lock: LockId, users: nat)

  datatype State = State(
    cache: Option<Value>,
    registry: Registry,
    owner: map<LockId, Tid>,   // lock objects that are held
    nextLock: LockId,          // lock objects made so far
    pc: map<Tid, PC>,
    fetched: seq<Value>,       // successful fetches, oldest first
    expiries: nat)

  const INIT := State(None, NoLock, map[], 0, map[], [], 0)

  datatype Step =
    | Call(t: Tid)
    | FirstGet(t: Tid)
    | Enter(t: Tid)
    | Acquire(t: Tid)
    | SecondGet(t: Tid)
    | Fetch(t: Tid, answer: Option<Value>)
    | Store(t: Tid)
    | Release(t: Tid)
    | Leave(t: Tid)
    | Expire

  predicate Enabled(s: State, step: Step) {
    match step
    case Call(t) => t !in s.pc
    case FirstGet(t) => t in s.pc && s.pc[t].Start?
    case Enter(t) => t in s.pc && s.pc[t].Missed?
    case Acquire(t) => t in s.pc && s.pc[t].Waiting? && s.pc[t].lock !in s.owner
    case SecondGet(t) => t in s.pc && s.pc[t].Holding?
    case Fetch(t, _) => t in s.pc && s.pc[t].Fetching?
    case Store(t) => t in s.pc && s.pc[t].Storing?
    case Release(t) => t in s.pc && s.pc[t].Releasing?
    case Leave(t) => t in s.pc && s.pc[t].Leaving?
    case Expire => s.cache.Some?
  }

  function Next(s: State, step: Step): State
    requires Enabled(s, step)
  {
    match step
    case Call(t) => s.(pc := s.pc[t := Start])
    case FirstGet(t) => s.(pc := s.pc[t := if s.cache.Some? then Done(s.cache) else Missed])
    case Enter(t) =>
      (match s.registry
       case NoLock =>
         s.(registry := Live(s.nextLock, 1), nextLock := s.nextLock + 1, pc := s.pc[t := Waiting(s.nextLock)])
       case Live(l, n) =>
         s.(registry := Live(l, n + 1), pc := s.pc[t := Waiting(l)]))
    case Acquire(t) => s.(owner := s.owner[s.pc[t].lock := t], pc := s.pc[t := Holding(s.pc[t].lock)])
    case SecondGet(t) =>
      var l := s.pc[t].lock;
      s.(pc := s.pc[t := if s.cache.Some? then Releasing(l, s.cache) else Fetching(l)])
    case Fetch(t, answer) =>
      var l := s.pc[t].lock;
      if answer.Some? then
        s.(fetched := s.fetched + [answer.value], pc := s.pc[t := Storing(l, answer.value)])
      else
        s.(pc := s.pc[t := Releasing(l, None)])
    case Store(t) =>
      var v := Some(s.pc[t].value);
      s.(cache := v, pc := s.pc[t := Releasing(s.pc[t].lock, v)])
    case Release(t) =>
      s.(owner := s.owner - {s.pc[t].lock}, pc := s.pc[t := Leaving(s.pc[t].lock, s.pc[t].result)])
    case Leave(t) =>
      var left := s.(pc := s.pc[t := Done(s.pc[t].result)]);
      (match s.registry
       case NoLock => left
       case Live(l, n) => left.(registry := if n <= 1 then NoLock else Live(l, n - 1)))
    case Expire => s.(cache := None, expiries := s.expiries + 1)
  }

  predicate Runs(s: State, steps: seq<Step>, t: State)
    decreases |steps|
  {
    if steps == [] then s == t
    else Enabled(s, steps[0]) && Runs(Next(s, steps[0]), steps[1..], t)
  }

  // ---- the invariant -------------------------------------------------------

  ghost function Users(pc: map<Tid, PC>): set<Tid> {
    set t | t in pc && pc[t].Registered()
  }

  /** The registry counts its users, and all of them share its lock object. */
  ghost predicate RegistryInv(s: State) {
    && (s.registry.NoLock? ==> Users(s.pc) == {})
    && (s.registry.Live? ==> s.registry.users == |Users(s.pc)| && s.registry.users > 0)
    && (s.registry.Live? ==> s.registry.lock < s.nextLock)
    && (forall t | t in s.pc && s.pc[t].Registered() :: s.registry.Live? && s.pc[t].lock == s.registry.lock)
  }

  ghost predicate LockInv(s: State) {
    && (forall l | l in s.owner ::
          l < s.nextLock && s.owner[l] in s.pc && s.pc[s.owner[l]].Inside() && s.pc[s.owner[l]].lock == l)
    && (forall t | t in s.pc && s.pc[t].Inside() :: s.pc[t].lock in s.owner && s.owner[s.pc[t].lock] == t)
  }

  ghost predicate Pending(s: State, t: Tid) {
    t in s.pc && s.pc[t].Storing?
  }

  ghost predicate ValueInv(s: State) {
    && (forall t | t in s.pc && (s.pc[t].Fetching? || s.pc[t].Storing?) :: s.cache.None?)
    && (forall t | Pending(s, t) :: s.fetched != [] && s.pc[t].value == s.fetched[|s.fetched| - 1])
    && (s.cache.Some? ==> s.fetched != [] && s.cache.value == s.fetched[|s.fetched| - 1])
    && (forall t | t in s.pc && s.pc[t].Answer().Some? :: s.pc[t].Answer().value in s.fetched)
    && |s.fetched| == s.expiries
                      + (if s.cache.Some? then 1 else 0)
                      + (if exists t :: Pending(s, t) then 1 else 0)
  }

  ghost predicate Inv(s: State) {
    RegistryInv(s) && LockInv(s) && ValueInv(s)
  }

  lemma UsersElsewhere(pc: map<Tid, PC>, t: Tid, p: PC)
    ensures Users(pc[t := p]) - {t} == Users(pc) - {t}
    ensures t in Users(pc) <==> t in pc && pc[t].Registered()
    ensures t in Users(pc[t := p]) <==> p.Registered()
  {
  }

  lemma UsersMove(pc: map<Tid, PC>, t: Tid, p: PC)
    ensures |Users(pc[t := p])| ==
            |Users(pc)| - (if t in pc && pc[t].Registered() then 1 else 0) + (if p.Registered() then 1 else 0)
    ensures |Users(pc[t := p])| == 0 ==> Users(pc[t := p]) == {}
  {
    UsersElsewhere(pc, t, p);
    SizeWithout(Users(pc), t);
    SizeWithout(Users(pc[t := p]), t);
  }

  lemma StepKeepsRegistry(s: State, step: Step)
    requires Inv(s) && Enabled(s, step)
    ensures RegistryInv(Next(s, step))
  {
    if !step.Expire? {
      var n := Next(s, step);
      UsersMove(s.pc, step.t, n.pc[step.t]);
      forall u | u in n.pc && n.pc[u].Registered()
        ensures n.registry.Live? && n.pc[u].lock == n.registry.lock
      {
        assert u in Users(n.pc);
        if u != step.t { assert u in Users(s.pc); }
      }
    }
  }

  lemma StepKeepsLock(s: State, step: Step)
    requires Inv(s) && Enabled(s, step)
    ensures LockInv(Next(s, step))
  {
  }

  /** No two threads are ever between acquire and release. */
  lemma OneInside(s: State, t: Tid, u: Tid)
    requires Inv(s) && t in s.pc && u in s.pc && s.pc[t].Inside() && s.pc[u].Inside()
    ensures t == u
  {
  }

  lemma FetchKeepsValues(s: State, step: Step)
    requires Inv(s) && Enabled(s, step) && step.Fetch?
    ensures ValueInv(Next(s, step))
  {
    var n := Next(s, step);
    forall u | Pending(s, u) || Pending(n, u) ensures u == step.t { OneInside(s, step.t, u); }
    assert step.answer.Some? ==> Pending(n, step.t);
  }

  lemma StoreKeepsValues(s: State, step: Step)
    requires Inv(s) && Enabled(s, step) && step.Store?
    ensures ValueInv(Next(s, step))
  {
    forall u | u in s.pc && (s.pc[u].Fetching? || s.pc[u].Storing?) ensures u == step.t { OneInside(s, step.t, u); }
    assert Pending(s, step.t);
  }

  lemma SecondGetKeepsValues(s: State, step: Step)
    requires Inv(s) && Enabled(s, step) && step.SecondGet?
    ensures ValueInv(Next(s, step))
  {
    var n := Next(s, step);
    forall u | Pending(s, u) || Pending(n, u) ensures false { OneInside(s, step.t, u); }
  }

  /** The other steps neither fetch nor store. */
  lemma QuietKeepsValues(s: State, step: Step)
    requires Inv(s) && Enabled(s, step) && !step.Fetch? && !step.Store? && !step.SecondGet?
    ensures ValueInv(Next(s, step))
  {
    var n := Next(s, step);
    forall u ensures Pending(s, u) <==> Pending(n, u) {}
  }

  lemma StepKeepsValues(s: State, step: Step)
    requires Inv(s) && Enabled(s, step)
    ensures ValueInv(Next(s, step))
  {
    match step {
      case Fetch(_, _) => FetchKeepsValues(s, step);
      case Store(_) => StoreKeepsValues(s, step);
      case SecondGet(_) => SecondGetKeepsValues(s, step);
      case _ => QuietKeepsValues(s, step);
    }
  }

  lemma {:induction false} RunKeepsInv(s: State, steps: seq<Step>, t: State)
    requires Inv(s) && Runs(s, steps, t)
    ensures Inv(t)
    decreases |steps|
  {
    if steps != [] {
      StepKeepsRegistry(s, steps[0]);
      StepKeepsLock(s, steps[0]);
      StepKeepsValues(s, steps[0]);
      RunKeepsInv(Next(s, steps[0]), steps[1..], t);
    }
  }

  // ---- what every interleaving keeps ---------------------------------------

  /** Mutual exclusion survives the deletion and re-creation of lock objects,
      and the registry is empty once every caller has left. */
  lemma LockRegistrySound(steps: seq<Step>, s: State)
    requires Runs(INIT, steps, s)
    ensures forall t, u | t in s.pc && u in s.pc && s.pc[t].Inside() && s.pc[u].Inside() :: t == u
    ensures (forall t | t in s.pc :: s.pc[t].Done?) ==> s.registry.NoLock? && s.owner == map[]
  {
    RunKeepsInv(INIT, steps, s);
    forall t, u | t in s.pc && u in s.pc && s.pc[t].Inside() && s.pc[u].Inside() ensures t == u {
      OneInside(s, t, u);
    }
    if forall t | t in s.pc :: s.pc[t].Done? {
      assert Users(s.pc) == {};
    }
  }

  /** Each expiry buys at most one more successful fetch, and every value a
      caller returns is one that was fetched. */
  lemma FetchesBoundedByExpiries(steps: seq<Step>, s: State)
    requires Runs(INIT, steps, s)
    ensures s.expiries <= |s.fetched| <= s.expiries + 1
    ensures forall t | t in s.pc && s.pc[t].Done? && s.pc[t].result.Some? :: s.pc[t].result.value in s.fetched
  {
    RunKeepsInv(INIT, steps, s);
    forall t | t in s.pc && s.pc[t].Done? && s.pc[t].result.Some? ensures s.pc[t].result.value in s.fetched {
      assert s.pc[t].Answer() == s.pc[t].result;
    }
  }

  lemma {:induction false} ExpiriesCount(s: State, steps: seq<Step>, t: State)
    requires Runs(s, steps, t) && Expire !in steps
    ensures t.expiries == s.expiries
    decreases |steps|
  {
    if steps != [] {
      assert forall x | x in steps[1..] :: x in steps;
      ExpiriesCount(Next(s, steps[0]), steps[1..], t);
    }
  }

  /** With no expiry in the window, any number of threads make at most one
      successful fetch between them, and all that return data return it. */
  lemma SingleFetch(steps: seq<Step>, s: State)
    requires Runs(INIT, steps, s) && Expire !in steps
    ensures |s.fetched| <= 1
    ensures forall t | t in s.pc && s.pc[t].Done? && s.pc[t].result.Some? ::
              |s.fetched| == 1 && s.pc[t].result.value == s.fetched[0]
  {
    ExpiriesCount(INIT, steps, s);
    FetchesBoundedByExpiries(steps, s);
  }

  // ---- a read with nobody in between ---------------------------------------

  /** The result, what the cache then holds, and whether it fetched. */
  function ReadAlone(hit: Option<Value>, answer: Option<Value>): (Option<Value>, Option<Value>, bool) {
    if hit.Some? then (hit, hit, false) else (answer, answer, true)
  }

  function GuardedSteps(t: Tid, answer: Option<Value>): seq<Step> {
    [Enter(t), Acquire(t), SecondGet(t), Fetch(t, answer)]
    + (if answer.Some? then [Store(t)] else [])
    + [Release(t), Leave(t)]
  }

  function ReadSteps(s: State, t: Tid, answer: Option<Value>): seq<Step> {
    [Call(t), FirstGet(t)] + if s.cache.Some? then [] else GuardedSteps(t, answer)
  }

  function AfterRead(s: State, t: Tid, answer: Option<Value>): State {
    var (result, cached, fetch) := ReadAlone(s.cache, answer);
    s.(cache := cached, pc := s.pc[t := Done(result)],
       fetched := s.fetched + (if fetch && answer.Some? then [answer.value] else []),
       nextLock := if fetch && s.registry.NoLock? then s.nextLock + 1 else s.nextLock)
  }

  lemma {:induction false} RunsExtend(s: State, steps: seq<Step>, t: State, step: Step)
    requires Runs(s, steps, t) && Enabled(t, step)
    ensures Runs(s, steps + [step], Next(t, step))
    decreases |steps|
  {
    if steps == [] {
      assert [step][1..] == [];
    } else {
      RunsExtend(Next(s, steps[0]), steps[1..], t, step);
      assert (steps + [step])[1..] == steps[1..] + [step];
    }
  }

  lemma {:induction false} RunsJoin(s: State, first: seq<Step>, t: State, more: seq<Step>, u: State)
    requires Runs(s, first, t) && Runs(t, more, u)
    ensures Runs(s, first + more, u)
    decreases |first|
  {
    if first == [] {
      assert first + more == more;
    } else {
      RunsJoin(Next(s, first[0]), first[1..], t, more, u);
      assert (first + more)[1..] == first[1..] + more;
    }
  }

  /** Nobody is inside, so the lock the registry hands out can be acquired. */
  ghost predicate Unguarded(s: State) {
    && s.nextLock !in s.owner
    && (s.registry.Live? ==> s.registry.lock !in s.owner && s.registry.users > 0)
  }

  /** The lock object an entering thread gets. */
  function NextLock(s: State): LockId {
    if s.registry.Live? then s.registry.lock else s.nextLock
  }

  /** Inside, before the second get. */
  function Inside(s: State, t: Tid): State {
    s.(registry := Live(NextLock(s), if s.registry.Live? then s.registry.users + 1 else 1),
       nextLock := if s.registry.Live? then s.nextLock else s.nextLock + 1,
       owner := s.owner[NextLock(s) := t], pc := s.pc[t := Holding(NextLock(s))])
  }

  lemma Enters(s: State, t: Tid)
    requires t in s.pc && s.pc[t].Missed? && Unguarded(s)
    ensures Runs(s, [Enter(t), Acquire(t)], Inside(s, t))
  {
    var waiting := Next(s, Enter(t));
    RunsExtend(s, [], s, Enter(t));
    RunsExtend(s, [] + [Enter(t)], waiting, Acquire(t));
    assert Next(waiting, Acquire(t)).pc == Inside(s, t).pc;
    assert [] + [Enter(t)] + [Acquire(t)] == [Enter(t), Acquire(t)];
  }

  /** With the provider's answer. */
  function Answered(s: State, t: Tid, answer: Option<Value>): State
    requires t in s.pc && s.pc[t].Holding?
  {
    var l := s.pc[t].lock;
    s.(fetched := s.fetched + (if answer.Some? then [answer.value] else []),
       pc := s.pc[t := if answer.Some? then Storing(l, answer.value) else Releasing(l, None)])
  }

  lemma GetsAndFetches(s: State, t: Tid, answer: Option<Value>)
    requires t in s.pc && s.pc[t].Holding? && s.cache.None?
    ensures Runs(s, [SecondGet(t), Fetch(t, answer)], Answered(s, t, answer))
  {
    var fetching := Next(s, SecondGet(t));
    RunsExtend(s, [], s, SecondGet(t));
    RunsExtend(s, [] + [SecondGet(t)], fetching, Fetch(t, answer));
    assert Next(fetching, Fetch(t, answer)).pc == Answered(s, t, answer).pc;
    assert Next(fetching, Fetch(t, answer)) == Answered(s, t, answer);
    assert [] + [SecondGet(t)] + [Fetch(t, answer)] == [SecondGet(t), Fetch(t, answer)];
  }

  /** Out again, with a result. */
  function Left(s: State, t: Tid): State
    requires t in s.pc && s.pc[t].Releasing? && s.registry.Live?
  {
    s.(owner := s.owner - {s.pc[t].lock}, pc := s.pc[t := Done(s.pc[t].result)],
       registry := if s.registry.users <= 1 then NoLock else Live(s.registry.lock, s.registry.users - 1))
  }

  lemma Leaves(s: State, t: Tid)
    requires t in s.pc && s.pc[t].Releasing? && s.registry.Live?
    ensures Runs(s, [Release(t), Leave(t)], Left(s, t))
  {
    var leaving := Next(s, Release(t));
    RunsExtend(s, [], s, Release(t));
    RunsExtend(s, [] + [Release(t)], leaving, Leave(t));
    assert Next(leaving, Leave(t)).pc == Left(s, t).pc;
    assert [] + [Release(t)] + [Leave(t)] == [Release(t), Leave(t)];
  }

  /** Out of the lock section: a truthy answer is stored first. */
  lemma StoresAndLeaves(s: State, t: Tid, answer: Option<Value>)
    requires t in s.pc && s.pc[t].Holding? && s.registry.Live?
    ensures var u := Answered(s, t, answer);
            var stored := if answer.Some? then Next(u, Store(t)) else u;
            Runs(u, (if answer.Some? then [Store(t)] else []) + [Release(t), Leave(t)], Left(stored, t))
  {
    var u := Answered(s, t, answer);
    if answer.Some? {
      Leaves(Next(u, Store(t)), t);
      assert ([Store(t)] + [Release(t), Leave(t)])[1..] == [Release(t), Leave(t)];
    } else {
      Leaves(u, t);
      assert [] + [Release(t), Leave(t)] == [Release(t), Leave(t)];
    }
  }

  /** The phases together. */
  lemma PhasesMakeRead(s: State, t: Tid, answer: Option<Value>)
    requires t in s.pc && s.pc[t].Missed? && s.cache.None? && Unguarded(s)
    ensures var u := Answered(Inside(s, t), t, answer);
            AfterRead(s, t, answer) == Left(if answer.Some? then Next(u, Store(t)) else u, t)
  {
    var u := Answered(Inside(s, t), t, answer);
    var left := Left(if answer.Some? then Next(u, Store(t)) else u, t);
    assert left.owner == s.owner;
    assert left.pc == AfterRead(s, t, answer).pc;
  }

  lemma GuardedRead(s: State, t: Tid, answer: Option<Value>)
    requires t in s.pc && s.pc[t].Missed? && s.cache.None? && Unguarded(s)
    ensures Runs(s, GuardedSteps(t, answer), AfterRead(s, t, answer))
  {
    var inside := Inside(s, t);
    var rest := (if answer.Some? then [Store(t)] else []) + [Release(t), Leave(t)];
    Enters(s, t);
    GetsAndFetches(inside, t, answer);
    StoresAndLeaves(inside, t, answer);
    PhasesMakeRead(s, t, answer);
    RunsJoin(inside, [SecondGet(t), Fetch(t, answer)], Answered(inside, t, answer), rest, AfterRead(s, t, answer));
    RunsJoin(s, [Enter(t), Acquire(t)], inside, [SecondGet(t), Fetch(t, answer)] + rest, AfterRead(s, t, answer));
    assert [Enter(t), Acquire(t)] + ([SecondGet(t), Fetch(t, answer)] + rest) == GuardedSteps(t, answer);
  }

  /** In every state of the protocol in which nobody is inside, a read with
      nobody in between is a run of it with this outcome. */
  lemma UninterruptedRead(s: State, t: Tid, answer: Option<Value>)
    requires t !in s.pc && Unguarded(s)
    ensures Runs(s, ReadSteps(s, t, answer), AfterRead(s, t, answer))
  {
    var s1 := Next(s, Call(t));
    var s2 := Next(s1, FirstGet(t));
    assert ReadSteps(s, t, answer)[1..][1..] == if s.cache.Some? then [] else GuardedSteps(t, answer);
    if s.cache.None? {
      GuardedRead(s2, t, answer);
      assert AfterRead(s2, t, answer).pc == AfterRead(s, t, answer).pc;
      assert AfterRead(s2, t, answer) == AfterRead(s, t, answer);
    } else {
      assert s2.pc == AfterRead(s, t, answer).pc;
    }
  }

  // ---- the cache and the guarded read --------------------------------------

  type Key = string
  datatype Entry = Entry(data: Value, expiry: real)

  /** The live entry for a key: present and not past its expiry. */
  function LiveEntry(memory: map<Key, Entry>, key: Key, now: real): Option<Value> {
    if key in memory && now <= memory[key].expiry then Some(memory[key].data) else None
  }

  class MarketDataCache {
    var memory: map<Key, Entry>
    var inflightLocks: map<Key, LockId>
    var inflightCounts: map<Key, nat>
    var nextLock: LockId

    ghost predicate Valid()
      reads this
    {
      && inflightLocks.Keys == inflightCounts.Keys
      && (forall k | k in inflightCounts :: inflightCounts[k] > 0 && inflightLocks[k] < nextLock)
    }

    /** The registry of one key, as the protocol sees it. */
    ghost function RegistryOf(key: Key): Registry
      reads this`inflightLocks, this`inflightCounts
    {
      if key in inflightLocks && key in inflightCounts then Live(inflightLocks[key], inflightCounts[key]) else NoLock
    }

    constructor ()
      ensures Valid() && memory == map[] && inflightLocks == map[]
    {
      memory, inflightLocks, inflightCounts, nextLock := map[], map[], map[], 0;
    }

    /** A read past the expiry evicts the entry. */
    method Get(key: Key, now: real) returns (r: Option<Value>)
      requires Valid()
      modifies this`memory
      ensures Valid() && r == LiveEntry(old(memory), key, now)
      ensures memory == if r.None? then old(memory) - {key} else old(memory)
    {
      if key !in memory {
        assert memory == memory - {key};
        return None;
      }
      if now > memory[key].expiry {
        memory := memory - {key};
        return None;
      }
      return Some(memory[key].data);
    }

    method Set(key: Key, value: Value, now: real, ttl: real)
      requires Valid()
      modifies this`memory
      ensures Valid() && memory == old(memory)[key := Entry(value, now + ttl)]
    {
      memory := memory[key := Entry(value, now + ttl)];
    }

    /** Registers one more user of the key's lock, making it if need be. */
    method EnterInflight(key: Key) returns (lock: LockId)
      requires Valid()
      modifies this`inflightLocks, this`inflightCounts, this`nextLock
      ensures Valid()
      ensures RegistryOf(key) == Live(lock, if old(RegistryOf(key)).Live? then old(RegistryOf(key)).users + 1 else 1)
      ensures old(RegistryOf(key)).Live? ==> lock == old(RegistryOf(key)).lock && nextLock == old(nextLock)
      ensures old(RegistryOf(key)).NoLock? ==> lock == old(nextLock) && nextLock == lock + 1
      ensures forall k | k != key :: RegistryOf(k) == old(RegistryOf(k))
    {
      if key !in inflightLocks {
        inflightLocks := inflightLocks[key := nextLock];
        inflightCounts := inflightCounts[key := 0];
        nextLock := nextLock + 1;
      }
      lock := inflightLocks[key];
      inflightCounts := inflightCounts[key := inflightCounts[key] + 1];
    }

    /** Drops one user, and the lock object with the last one. */
    method LeaveInflight(key: Key)
      requires Valid() && key in inflightLocks
      modifies this`inflightLocks, this`inflightCounts
      ensures Valid()
      ensures RegistryOf(key) ==
              (var r := old(RegistryOf(key)); if r.users <= 1 then NoLock else Live(r.lock, r.users - 1))
      ensures forall k | k != key :: RegistryOf(k) == old(RegistryOf(k))
    {
      if inflightCounts[key] <= 1 {
        inflightLocks := inflightLocks - {key};
        inflightCounts := inflightCounts - {key};
      } else {
        inflightCounts := inflightCounts[key := inflightCounts[key] - 1];
      }
    }
  }

  /** What is stored at `t0` with a time to live is read back, by a get with no
      other access in between, until that time has passed and not after. */
  method StoreThenGet(cache: MarketDataCache, key: Key, value: Value, t0: real, ttl: real, t1: real)
    returns (r: Option<Value>)
    requires cache.Valid()
    modifies cache
    ensures cache.Valid()
    ensures r == if t1 <= t0 + ttl then Some(value) else None
    ensures key in cache.memory <==> t1 <= t0 + ttl
    ensures forall k | k != key :: k in cache.memory <==> k in old(cache.memory)
    ensures forall k | k != key && k in cache.memory :: cache.memory[k] == old(cache.memory[k])
  {
    cache.Set(key, value, t0, ttl);
    r := cache.Get(key, t1);
  }

  const TTL_SNAPSHOTS := 300.0

  /** One caller's read with nobody in between.  `t0`, `t1`, `t2` are the clock
      readings and `answer` is what the provider would return. */
  method GetOptionChainSnapshot(cache: MarketDataCache, key: Key, t0: real, t1: real, t2: real, answer: Option<Value>)
    returns (result: Option<Value>, fetched: bool)
    requires cache.Valid() && t0 <= t1 <= t2
    modifies cache
    ensures cache.Valid()
    ensures (result, LiveEntry(cache.memory, key, t0), fetched)
            == ReadAlone(LiveEntry(old(cache.memory), key, t0), answer)
    ensures var hit := LiveEntry(old(cache.memory), key, t0);
            && (hit.Some? ==> cache.memory == old(cache.memory))
            && (hit.None? && answer.None? ==> cache.memory == old(cache.memory) - {key})
            && (hit.None? && answer.Some? ==>
                  cache.memory == old(cache.memory)[key := Entry(answer.value, t2 + TTL_SNAPSHOTS)])
    ensures forall k :: cache.RegistryOf(k) == old(cache.RegistryOf(k))
    ensures cache.nextLock ==
            old(cache.nextLock) + (if fetched && old(cache.RegistryOf(key)).NoLock? then 1 else 0)
  {
    fetched := false;
    result := cache.Get(key, t0);
    if result.Some? { return; }
    var _ := cache.EnterInflight(key);
    result := cache.Get(key, t1);
    if result.None? {
      result, fetched := answer, true;
      if result.Some? {
        cache.Set(key, result.value, t2, TTL_SNAPSHOTS);
      }
    }
    assert cache.RegistryOf(key).users > 0;
    cache.LeaveInflight(key);
    forall k ensures cache.RegistryOf(k) == old(cache.RegistryOf(k)) {
      if k == key && key in old(cache.inflightLocks) { assert old(cache.inflightCounts)[key] > 0; }
    }
  }
}
