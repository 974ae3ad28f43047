/** Many keyed locks, taken in sorted order. */
module FileLocks {
  import opened Ordering
  import opened Sums

  type Key = string
  type TaskId = nat
  type LockId = nat

  /** Where a task stands inside `locked(...)`.
      - Seeking: before `_lock_for` of the next key, or before the body once all locks are held
      - Looking: inside `_lock_for`, holding `_guard`
      - Awaiting: at `await lock.acquire()`
      - Body: inside the `async with` block
      - Releasing: in the `finally` loop
      - Finished: left `locked` */
  datatype Stage = Seeking | Looking | Awaiting(lock: LockId) | Body | Releasing | Finished

  /** `plan` is `unique`, `held` is `acquired`. */
  datatype Task = Task(plan: seq<Key>, held: seq<LockId>, stage: Stage)

  /** `registry` is `_locks`; `owner` says which task has each locked lock. */
  datatype State = State(
    registry: map<Key, LockId>, guard: Option<TaskId>, owner: map<LockId, TaskId>, tasks: seq<Task>)

  /** Tasks interleave at their awaits; one action is what runs between two of them. */
  datatype Action =
    | EnterGuard(t: TaskId)            // acquire `_guard`
    | FindLock(t: TaskId)              // the key has a lock: return it, leaving `_guard`
    | CreateLock(t: TaskId, l: LockId) // the key has none: make a new lock `l`, leaving `_guard`
    | Acquire(t: TaskId)               // the awaited lock is free: take it
    | EnterBody(t: TaskId)
    | LeaveBody(t: TaskId)             // normally or by an exception
    | Cancel(t: TaskId)                // CancelledError at the guard or at a lock
    | Release(t: TaskId)               // release the last lock still held
    | Finish(t: TaskId)

  /** The keys given, without `None`. */
  function Given(keys: seq<Option<Key>>): seq<Key> {
    if keys == [] then []
    else (if keys[0].Some? then [keys[0].value] else []) + Given(keys[1..])
  }

  /** `sorted({key for key in keys if key is not None})`. */
  function Plan(keys: seq<Option<Key>>): seq<Key> {
    SortedSet(Given(keys))
  }

  predicate Enabled(s: State, a: Action) {
    && a.t < |s.tasks|
    && var k := s.tasks[a.t];
      match a
      case EnterGuard(_) => k.stage == Seeking && |k.held| < |k.plan| && s.guard == None
      case FindLock(_) => k.stage == Looking && |k.held| < |k.plan| && k.plan[|k.held|] in s.registry
      case CreateLock(_, l) =>
        k.stage == Looking && |k.held| < |k.plan| && k.plan[|k.held|] !in s.registry && l !in s.registry.Values
      case Acquire(_) => k.stage.Awaiting? && k.stage.lock !in s.owner
      case EnterBody(_) => k.stage == Seeking && |k.held| == |k.plan|
      case LeaveBody(_) => k.stage == Body
      case Cancel(_) => k.stage.Awaiting? || (k.stage == Seeking && |k.held| < |k.plan|)
      case Release(_) => k.stage == Releasing && k.held != []
      case Finish(_) => k.stage == Releasing && k.held == []
  }

  function Apply(s: State, a: Action): State
    requires Enabled(s, a)
  {
    var k := s.tasks[a.t];
    match a
    case EnterGuard(t) => s.(guard := Some(t), tasks := s.tasks[t := k.(stage := Looking)])
    case FindLock(t) =>
      s.(guard := None, tasks := s.tasks[t := k.(stage := Awaiting(s.registry[k.plan[|k.held|]]))])
    case CreateLock(t, l) =>
      s.(registry := s.registry[k.plan[|k.held|] := l], guard := None,
         tasks := s.tasks[t := k.(stage := Awaiting(l))])
    case Acquire(t) =>
      s.(owner := s.owner[k.stage.lock := t],
         tasks := s.tasks[t := k.(held := k.held + [k.stage.lock], stage := Seeking)])
    case EnterBody(t) => s.(tasks := s.tasks[t := k.(stage := Body)])
    case LeaveBody(t) => s.(tasks := s.tasks[t := k.(stage := Releasing)])
    case Cancel(t) => s.(tasks := s.tasks[t := k.(stage := Releasing)])
    case Release(t) =>
      s.(owner := s.owner - {k.held[|k.held| - 1]},
         tasks := s.tasks[t := k.(held := k.held[..|k.held| - 1])])
    case Finish(t) => s.(tasks := s.tasks[t := k.(stage := Finished)])
  }

  /** One task per request, no lock made yet. */
  function Start(requests: seq<seq<Option<Key>>>): State {
    State(map[], None, map[], seq(|requests|, i requires 0 <= i < |requests| => Task(Plan(requests[i]), [], Seeking)))
  }

  ghost predicate IsRun(s: State, acts: seq<Action>)
    decreases |acts|
  {
    acts != [] ==> Enabled(s, acts[0]) && IsRun(Apply(s, acts[0]), acts[1..])
  }

  ghost function After(s: State, acts: seq<Action>): State
    requires IsRun(s, acts)
    decreases |acts|
  {
    if acts == [] then s else After(Apply(s, acts[0]), acts[1..])
  }

  // ---------------------------------------------------------------- invariant

  ghost predicate TaskOk(s: State, t: TaskId)
    requires t < |s.tasks|
  {
    var k := s.tasks[t];
    && Ascending(k.plan)
    && |k.held| <= |k.plan|
    && (forall i :: 0 <= i < |k.held| ==> k.plan[i] in s.registry && k.held[i] == s.registry[k.plan[i]])
    && (forall i :: 0 <= i < |k.held| ==> k.held[i] in s.owner && s.owner[k.held[i]] == t)
    && (k.stage == Looking <==> s.guard == Some(t))
    && (k.stage == Looking ==> |k.held| < |k.plan|)
    && (k.stage.Awaiting? ==>
          |k.held| < |k.plan| && k.plan[|k.held|] in s.registry && s.registry[k.plan[|k.held|]] == k.stage.lock)
    && (k.stage == Body ==> |k.held| == |k.plan|)
    && (k.stage == Finished ==> k.held == [])
  }

  ghost predicate Inv(s: State) {
    && (forall a, b :: a in s.registry && b in s.registry && s.registry[a] == s.registry[b] ==> a == b)
    && (forall l :: l in s.owner ==> s.owner[l] < |s.tasks| && l in s.tasks[s.owner[l]].held)
    && (s.guard.Some? ==> s.guard.value < |s.tasks|)
    && (forall t: TaskId :: t < |s.tasks| ==> TaskOk(s, t))
  }

  lemma HeldDistinct(s: State, t: TaskId, i: nat, j: nat)
    requires Inv(s) && t < |s.tasks| && i < j < |s.tasks[t].held|
    ensures s.tasks[t].held[i] != s.tasks[t].held[j]
  {
    var k := s.tasks[t];
    assert TaskOk(s, t);
    assert Less(k.plan[i], k.plan[j]);
  }

  /** What the actor's own step keeps about the actor. */
  lemma StepKeepsActor(s: State, a: Action)
    requires Inv(s) && Enabled(s, a)
    ensures TaskOk(Apply(s, a), a.t)
  {
    var r := Apply(s, a);
    var k, k' := s.tasks[a.t], r.tasks[a.t];
    assert TaskOk(s, a.t);
    match a
    case CreateLock(t, l) =>
      forall i | 0 <= i < |k.held| ensures k.plan[i] != k.plan[|k.held|] {
        assert Less(k.plan[i], k.plan[|k.held|]);
      }
    case Release(t) =>
      forall i | 0 <= i < |k'.held| ensures k'.held[i] in r.owner && r.owner[k'.held[i]] == t {
        HeldDistinct(s, t, i, |k.held| - 1);
      }
    case _ =>
  }

  /** What the step keeps about every other task: nobody loses a lock or gets one twice. */
  lemma StepKeepsOther(s: State, a: Action, t: TaskId)
    requires Inv(s) && Enabled(s, a) && t < |s.tasks| && t != a.t
    ensures TaskOk(Apply(s, a), t)
  {
    var r := Apply(s, a);
    assert r.tasks[t] == s.tasks[t];
    assert TaskOk(s, t) && TaskOk(s, a.t);
    assert forall k :: k in s.registry ==> k in r.registry && r.registry[k] == s.registry[k];
    assert forall l :: l in s.owner && s.owner[l] == t ==> l in r.owner && r.owner[l] == t;
  }

  lemma StepKeepsOwners(s: State, a: Action)
    requires Inv(s) && Enabled(s, a)
    ensures var r := Apply(s, a);
            forall l :: l in r.owner ==> r.owner[l] < |r.tasks| && l in r.tasks[r.owner[l]].held
  {
    var r := Apply(s, a);
    var k, k' := s.tasks[a.t], r.tasks[a.t];
    forall l | l in r.owner ensures r.owner[l] < |r.tasks| && l in r.tasks[r.owner[l]].held {
      if a.Acquire? && l == k.stage.lock {
        assert k'.held[|k.held|] == l;
      } else {
        assert l in s.owner && l in s.tasks[s.owner[l]].held;
        if s.owner[l] == a.t {
          var i :| 0 <= i < |k.held| && k.held[i] == l;
          assert i < |k'.held| && k'.held[i] == l;
        }
      }
    }
  }

  lemma StepKeepsInv(s: State, a: Action)
    requires Inv(s) && Enabled(s, a)
    ensures Inv(Apply(s, a))
  {
    var r := Apply(s, a);
    StepKeepsOwners(s, a);
    forall t: TaskId | t < |r.tasks| ensures TaskOk(r, t) {
      if t == a.t {
        StepKeepsActor(s, a);
      } else {
        StepKeepsOther(s, a, t);
      }
    }
    forall x, y | x in r.registry && y in r.registry && r.registry[x] == r.registry[y] ensures x == y {
      assert x in s.registry ==> s.registry[x] in s.registry.Values;
      assert y in s.registry ==> s.registry[y] in s.registry.Values;
    }
  }

  lemma StartInv(requests: seq<seq<Option<Key>>>)
    ensures Inv(Start(requests))
  {
  }

  lemma {:induction false} RunKeepsInv(s: State, acts: seq<Action>)
    requires Inv(s) && IsRun(s, acts)
    ensures Inv(After(s, acts)) && |After(s, acts).tasks| == |s.tasks|
    decreases |acts|
  {
    if acts != [] {
      StepKeepsInv(s, acts[0]);
      RunKeepsInv(Apply(s, acts[0]), acts[1..]);
    }
  }

  // ---------------------------------------------------------------- the plan

  lemma {:induction false} GivenMembers(keys: seq<Option<Key>>, k: Key)
    ensures k in Given(keys) <==> Some(k) in keys
  {
    if keys != [] {
      GivenMembers(keys[1..], k);
      assert keys == [keys[0]] + keys[1..];
    }
  }

  /** Each key asked for is locked once, in sorted order, `None` dropped; nothing else is. */
  lemma PlanExact(keys: seq<Option<Key>>)
    ensures Ascending(Plan(keys))
    ensures forall k :: k in Plan(keys) <==> Some(k) in keys
    ensures forall p :: Ascending(p) && (forall k :: k in p <==> Some(k) in keys) ==> p == Plan(keys)
  {
    forall k ensures k in Plan(keys) <==> Some(k) in keys {
      GivenMembers(keys, k);
    }
    forall p | Ascending(p) && (forall k :: k in p <==> Some(k) in keys) ensures p == Plan(keys) {
      AscendingUnique(p, Plan(keys));
    }
  }

  // ---------------------------------------------------------------- mutual exclusion

  /** Task `t` has the lock of `key`. */
  ghost predicate Holds(s: State, t: TaskId, key: Key) {
    t < |s.tasks| && |s.tasks[t].held| <= |s.tasks[t].plan| && key in s.tasks[t].plan[..|s.tasks[t].held|]
  }

  /** In every reachable state a key is held by one task at most. */
  lemma MutualExclusion(requests: seq<seq<Option<Key>>>, acts: seq<Action>, t: TaskId, u: TaskId, key: Key)
    requires IsRun(Start(requests), acts)
    requires var s := After(Start(requests), acts); Holds(s, t, key) && Holds(s, u, key)
    ensures t == u
  {
    var s := After(Start(requests), acts);
    StartInv(requests);
    RunKeepsInv(Start(requests), acts);
    assert TaskOk(s, t) && TaskOk(s, u);
    var i :| 0 <= i < |s.tasks[t].held| && s.tasks[t].plan[i] == key;
    var j :| 0 <= j < |s.tasks[u].held| && s.tasks[u].plan[j] == key;
    assert s.tasks[t].held[i] == s.tasks[u].held[j];
  }

  lemma {:induction false} RunKeepsPlans(s: State, acts: seq<Action>, t: TaskId)
    requires IsRun(s, acts) && t < |s.tasks|
    ensures t < |After(s, acts).tasks| && After(s, acts).tasks[t].plan == s.tasks[t].plan
    decreases |acts|
  {
    if acts != [] {
      RunKeepsPlans(Apply(s, acts[0]), acts[1..], t);
    }
  }

  /** The body runs with every key that was asked for held. */
  lemma BodyHoldsAllKeys(requests: seq<seq<Option<Key>>>, acts: seq<Action>, t: TaskId, key: Key)
    requires IsRun(Start(requests), acts)
    requires t < |requests| && Some(key) in requests[t]
    requires t < |After(Start(requests), acts).tasks| && After(Start(requests), acts).tasks[t].stage == Body
    ensures Holds(After(Start(requests), acts), t, key)
  {
    var s0 := Start(requests);
    var s := After(s0, acts);
    StartInv(requests);
    RunKeepsInv(s0, acts);
    RunKeepsPlans(s0, acts, t);
    assert TaskOk(s, t);
    PlanExact(requests[t]);
    assert s.tasks[t].plan[..|s.tasks[t].held|] == s.tasks[t].plan;
  }

  // ---------------------------------------------------------------- no deadlock

  ghost predicate Blocked(s: State, t: TaskId) {
    t < |s.tasks| && s.tasks[t].stage.Awaiting? && s.tasks[t].stage.lock in s.owner
  }

  /** The key a blocked task waits for is held by another task, one that has not finished. */
  lemma BlockedByAHolder(s: State, t: TaskId) returns (u: TaskId)
    requires Inv(s) && Blocked(s, t)
    ensures u < |s.tasks| && u != t && s.tasks[u].stage != Finished
    ensures |s.tasks[t].held| < |s.tasks[t].plan| && Holds(s, u, s.tasks[t].plan[|s.tasks[t].held|])
  {
    var k := s.tasks[t];
    assert TaskOk(s, t);
    u := s.owner[k.stage.lock];
    assert TaskOk(s, u);
    var key := k.plan[|k.held|];
    var i :| 0 <= i < |s.tasks[u].held| && s.tasks[u].held[i] == k.stage.lock;
    assert s.tasks[u].plan[i] == key;
    assert s.tasks[u].plan[..|s.tasks[u].held|][i] == key;
    assert forall j :: 0 <= j < |k.held| ==> Less(k.plan[j], key);
  }

  /** The key task `t` waits for. */
  ghost function Wanted(s: State, t: TaskId): Key
    requires Inv(s) && Blocked(s, t)
  {
    assert TaskOk(s, t);
    s.tasks[t].plan[|s.tasks[t].held|]
  }

  /** Among the first `n` tasks, one that waits for the greatest key. */
  lemma {:induction false} GreatestWanted(s: State, n: nat) returns (t: TaskId)
    requires Inv(s) && n <= |s.tasks|
    requires exists u: TaskId :: u < n && Blocked(s, u)
    ensures t < n && Blocked(s, t)
    ensures forall u: TaskId :: u < n && Blocked(s, u) ==> Le(Wanted(s, u), Wanted(s, t))
  {
    if exists u: TaskId :: u < n - 1 && Blocked(s, u) {
      t := GreatestWanted(s, n - 1);
      if Blocked(s, n - 1) {
        LeTotal(Wanted(s, n - 1), Wanted(s, t));
        if Le(Wanted(s, t), Wanted(s, n - 1)) {
          forall u: TaskId | u < n - 1 && Blocked(s, u) ensures Le(Wanted(s, u), Wanted(s, n - 1)) {
            LeTransitive(Wanted(s, u), Wanted(s, t), Wanted(s, n - 1));
          }
          t := n - 1;
        }
        LeReflexive(Wanted(s, t));
      }
    } else {
      t := n - 1;
      LeReflexive(Wanted(s, t));
    }
  }

  lemma {:induction false} FreshLock(used: set<LockId>) returns (l: LockId)
    ensures forall u :: u in used ==> u < l
  {
    l := 0;
    if used != {} {
      var u :| u in used;
      var m := FreshLock(used - {u});
      l := if u < m then m else u + 1;
      assert forall v :: v in used ==> v == u || v in used - {u};
    }
  }

  /** A task can step without being cancelled unless it is finished, blocked, or outside a busy guard. */
  lemma WhoCanStep(s: State, t: TaskId) returns (a: Action)
    requires Inv(s) && t < |s.tasks|
    requires s.tasks[t].stage != Finished && !Blocked(s, t)
    requires s.guard == None || s.guard == Some(t)
    ensures Enabled(s, a) && !a.Cancel? && a.t == t
  {
    var k := s.tasks[t];
    assert TaskOk(s, t);
    match k.stage
    case Seeking => a := if |k.held| < |k.plan| then EnterGuard(t) else EnterBody(t);
    case Looking =>
      if k.plan[|k.held|] in s.registry {
        a := FindLock(t);
      } else {
        var l := FreshLock(s.registry.Values);
        a := CreateLock(t, l);
      }
    case Awaiting(_) => a := Acquire(t);
    case Body => a := LeaveBody(t);
    case Releasing => a := if k.held == [] then Finish(t) else Release(t);
  }

  ghost predicate AllFinished(s: State) {
    forall t: TaskId :: t < |s.tasks| ==> s.tasks[t].stage == Finished
  }

  /** No reachable state is a deadlock: while a task is unfinished some task can step, and without
      anybody being cancelled. */
  lemma NoDeadlock(requests: seq<seq<Option<Key>>>, acts: seq<Action>) returns (a: Action)
    requires IsRun(Start(requests), acts)
    requires !AllFinished(After(Start(requests), acts))
    ensures Enabled(After(Start(requests), acts), a) && !a.Cancel?
  {
    var s := After(Start(requests), acts);
    StartInv(requests);
    RunKeepsInv(Start(requests), acts);
    var t: TaskId :| t < |s.tasks| && s.tasks[t].stage != Finished;
    if s.guard.Some? {
      assert TaskOk(s, s.guard.value);
      a := WhoCanStep(s, s.guard.value);
    } else if !Blocked(s, t) {
      a := WhoCanStep(s, t);
    } else {
      t := GreatestWanted(s, |s.tasks|);
      var u := BlockedByAHolder(s, t);
      if Blocked(s, u) {
        var key := Wanted(s, t);
        var i :| 0 <= i < |s.tasks[u].held| && s.tasks[u].plan[i] == key;
        assert TaskOk(s, u);
        assert Less(key, Wanted(s, u));
        LeAntisymmetric(key, Wanted(s, u));
        assert false;
      }
      a := WhoCanStep(s, u);
    }
  }

  // ---------------------------------------------------------------- every run ends

  /** How many more steps a task may take. */
  ghost function Work(k: Task): nat {
    var left := if |k.held| <= |k.plan| then |k.plan| - |k.held| else 0;
    match k.stage
    case Seeking => 3 * left + |k.plan| + 3
    case Looking => 3 * left + |k.plan| + 2
    case Awaiting(_) => 3 * left + |k.plan| + 1
    case Body => |k.plan| + 2
    case Releasing => |k.held| + 1
    case Finished => 0
  }

  ghost function Works(tasks: seq<Task>): seq<nat> {
    seq(|tasks|, i requires 0 <= i < |tasks| => Work(tasks[i]))
  }

  lemma StepUsesWork(s: State, a: Action)
    requires Inv(s) && Enabled(s, a)
    ensures Sum(Works(Apply(s, a).tasks)) < Sum(Works(s.tasks))
  {
    assert TaskOk(s, a.t);
    var k := Apply(s, a).tasks[a.t];
    SumUpdate(Works(s.tasks), a.t, Work(k));
    assert Works(Apply(s, a).tasks) == Works(s.tasks)[a.t := Work(k)];
  }

  lemma {:induction false} RunIsBounded(s: State, acts: seq<Action>)
    requires Inv(s) && IsRun(s, acts)
    ensures |acts| <= Sum(Works(s.tasks))
    decreases |acts|
  {
    if acts != [] {
      StepKeepsInv(s, acts[0]);
      StepUsesWork(s, acts[0]);
      RunIsBounded(Apply(s, acts[0]), acts[1..]);
    }
  }

  lemma FinishedIsFree(s: State)
    requires Inv(s) && AllFinished(s)
    ensures s.owner == map[] && s.guard == None
  {
    assert forall t: TaskId :: t < |s.tasks| ==> TaskOk(s, t) && s.tasks[t].held == [];
    assert s.owner.Keys == {};
    assert s.guard.Some? ==> TaskOk(s, s.guard.value);
  }

  ghost function Budget(requests: seq<seq<Option<Key>>>): nat {
    if requests == [] then 0 else 4 * |Plan(requests[0])| + 3 + Budget(requests[1..])
  }

  lemma {:induction false} BudgetIsWork(requests: seq<seq<Option<Key>>>)
    ensures Sum(Works(Start(requests).tasks)) == Budget(requests)
  {
    if requests != [] {
      BudgetIsWork(requests[1..]);
      assert Works(Start(requests).tasks)[1..] == Works(Start(requests[1..]).tasks);
    }
  }

  /** Every run is finite, at most 4 steps per distinct key and 3 per task, and one that can go no
      further has finished every task and freed every lock and the guard. */
  lemma RunsEndFree(requests: seq<seq<Option<Key>>>, acts: seq<Action>)
    requires IsRun(Start(requests), acts)
    ensures |acts| <= Budget(requests) && |After(Start(requests), acts).tasks| == |requests|
    ensures var s := After(Start(requests), acts);
            (forall a :: !Enabled(s, a)) ==> AllFinished(s) && s.owner == map[] && s.guard == None
  {
    var s0 := Start(requests);
    StartInv(requests);
    RunIsBounded(s0, acts);
    BudgetIsWork(requests);
    var s := After(s0, acts);
    RunKeepsInv(s0, acts);
    if forall a :: !Enabled(s, a) {
      if !AllFinished(s) {
        var a := NoDeadlock(requests, acts);
      }
      FinishedIsFree(s);
    }
  }

  // ---------------------------------------------------------------- the body runs

  ghost predicate PassesAt(s: State, acts: seq<Action>, t: TaskId, stage: Stage, n: nat) {
    && n <= |acts| && IsRun(s, acts[..n])
    && t < |After(s, acts[..n]).tasks| && After(s, acts[..n]).tasks[t].stage == stage
  }

  /** After some number of the actions, task `t` stands at `stage`. */
  ghost predicate Passes(s: State, acts: seq<Action>, t: TaskId, stage: Stage) {
    exists n: nat :: PassesAt(s, acts, t, stage, n)
  }

  /** Whether it stands there at the start, or passes there later. */
  lemma PassesNext(s: State, acts: seq<Action>, t: TaskId, stage: Stage)
    requires IsRun(s, acts) && acts != [] && t < |s.tasks|
    ensures Passes(s, acts, t, stage) <==> s.tasks[t].stage == stage || Passes(Apply(s, acts[0]), acts[1..], t, stage)
  {
    var r := Apply(s, acts[0]);
    if s.tasks[t].stage == stage {
      assert acts[..0] == [];
      assert PassesAt(s, acts, t, stage, 0);
    }
    if n: nat :| PassesAt(s, acts, t, stage, n) {
      if n > 0 {
        assert acts[..n][0] == acts[0] && acts[..n][1..] == acts[1..][..n - 1];
        assert PassesAt(r, acts[1..], t, stage, n - 1);
      }
    }
    if n: nat :| PassesAt(r, acts[1..], t, stage, n) {
      assert acts[..n + 1][0] == acts[0] && acts[..n + 1][1..] == acts[1..][..n];
      assert PassesAt(s, acts, t, stage, n + 1);
    }
  }

  lemma PassesNone(s: State, t: TaskId, stage: Stage)
    requires t < |s.tasks|
    ensures Passes(s, [], t, stage) <==> s.tasks[t].stage == stage
  {
    if s.tasks[t].stage == stage {
      assert PassesAt(s, [], t, stage, 0);
    }
  }

  /** A task that is in its body is not cancelled there; one that releases its locks does not come to its body. */
  lemma {:induction false} AfterBody(s: State, acts: seq<Action>, t: TaskId)
    requires IsRun(s, acts) && t < |s.tasks| && s.tasks[t].stage in {Body, Releasing, Finished}
    ensures Cancel(t) !in acts
    ensures Passes(s, acts, t, Body) <==> s.tasks[t].stage == Body
    decreases |acts|
  {
    if acts == [] {
      PassesNone(s, t, Body);
    } else {
      assert acts == [acts[0]] + acts[1..];
      AfterBody(Apply(s, acts[0]), acts[1..], t);
      PassesNext(s, acts, t, Body);
    }
  }

  lemma {:induction false} BodyOrCancel(s: State, acts: seq<Action>, t: TaskId)
    requires IsRun(s, acts) && t < |s.tasks| && s.tasks[t].stage !in {Body, Releasing, Finished}
    requires t < |After(s, acts).tasks| && After(s, acts).tasks[t].stage == Finished
    ensures Passes(s, acts, t, Body) <==> Cancel(t) !in acts
    decreases |acts|
  {
    var r := Apply(s, acts[0]);
    assert acts == [acts[0]] + acts[1..];
    PassesNext(s, acts, t, Body);
    if r.tasks[t].stage in {Body, Releasing, Finished} {
      AfterBody(r, acts[1..], t);
    } else {
      BodyOrCancel(r, acts[1..], t);
    }
  }

  /** The task runs its body and holds all these keys. */
  ghost predicate InBody(s: State, t: TaskId, keys: seq<Option<Key>>) {
    t < |s.tasks| && s.tasks[t].stage == Body && forall key :: Some(key) in keys ==> Holds(s, t, key)
  }

  /** A task that has finished was in its body, with every key it asked for held, exactly when it was not cancelled
      on its way there. */
  lemma BodyRunsExact(requests: seq<seq<Option<Key>>>, acts: seq<Action>, t: TaskId)
    requires IsRun(Start(requests), acts) && t < |requests|
    requires t < |After(Start(requests), acts).tasks| && After(Start(requests), acts).tasks[t].stage == Finished
    ensures Cancel(t) !in acts <==>
      exists n: nat :: n <= |acts| && IsRun(Start(requests), acts[..n])
        && InBody(After(Start(requests), acts[..n]), t, requests[t])
  {
    var s0 := Start(requests);
    BodyOrCancel(s0, acts, t);
    if n: nat :| PassesAt(s0, acts, t, Body, n) {
      forall key | Some(key) in requests[t] ensures Holds(After(s0, acts[..n]), t, key) {
        BodyHoldsAllKeys(requests, acts[..n], t, key);
      }
      assert InBody(After(s0, acts[..n]), t, requests[t]);
    }
    if n: nat :| n <= |acts| && IsRun(s0, acts[..n]) && InBody(After(s0, acts[..n]), t, requests[t]) {
      assert PassesAt(s0, acts, t, Body, n);
    }
  }

  /** Wherever a task waits, for the guard or for a lock, it may be cancelled, and then it has its locks still to
      give back and no other task is touched. */
  lemma CancelExact(s: State, t: TaskId)
    requires Inv(s) && t < |s.tasks|
    ensures s.tasks[t].stage.Awaiting? || (s.tasks[t].stage == Seeking && |s.tasks[t].held| < |s.tasks[t].plan|)
       <==> Enabled(s, Cancel(t))
    ensures Enabled(s, Cancel(t)) ==>
      Apply(s, Cancel(t)) == State(s.registry, s.guard, s.owner,
                                   s.tasks[t := Task(s.tasks[t].plan, s.tasks[t].held, Releasing)])
  {
  }

  // ---------------------------------------------------------------- the table updated in place

  /** The table object: each method is the code a task runs between two awaits, and does to the fields
      what the action of the protocol does to the state. */
  class LockTable {
    var locks: map<Key, LockId>
    var guard: Option<TaskId>
    var owner: map<LockId, TaskId>
    var tasks: seq<Task>

    ghost function Now(): State
      reads this
    {
      State(locks, guard, owner, tasks)
    }

    constructor (requests: seq<seq<Option<Key>>>)
      ensures Now() == Start(requests)
    {
      locks, guard, owner := map[], None, map[];
      tasks := seq(|requests|, i requires 0 <= i < |requests| => Task(Plan(requests[i]), [], Seeking));
    }

    method EnterGuard(t: TaskId)
      requires Enabled(Now(), Action.EnterGuard(t))
      modifies this
      ensures Now() == Apply(old(Now()), Action.EnterGuard(t))
    {
      guard := Some(t);
      tasks := tasks[t := tasks[t].(stage := Looking)];
    }

    /** The body of `_lock_for`: look the key up, make and store a lock if it has none. */
    method LockFor(t: TaskId) returns (lock: LockId)
      requires t < |tasks| && tasks[t].stage == Looking && |tasks[t].held| < |tasks[t].plan|
      modifies this
      ensures var a := if old(tasks[t].plan[|tasks[t].held|] in locks) then FindLock(t) else CreateLock(t, lock);
              Enabled(old(Now()), a) && Now() == Apply(old(Now()), a)
      ensures tasks[t].stage == Awaiting(lock)
    {
      var key := tasks[t].plan[|tasks[t].held|];
      if key in locks {
        lock := locks[key];
      } else {
        ghost var unused := FreshLock(locks.Values);
        assert unused !in locks.Values;
        lock :| lock !in locks.Values;
        locks := locks[key := lock];
      }
      guard := None;
      tasks := tasks[t := tasks[t].(stage := Awaiting(lock))];
    }

    method Acquire(t: TaskId)
      requires Enabled(Now(), Action.Acquire(t))
      modifies this
      ensures Now() == Apply(old(Now()), Action.Acquire(t))
    {
      var lock := tasks[t].stage.lock;
      owner := owner[lock := t];
      tasks := tasks[t := tasks[t].(held := tasks[t].held + [lock], stage := Seeking)];
    }

    /** The `finally` loop: with nobody else running it gives back every lock of `t`, last first. */
    method ReleaseAll(t: TaskId)
      requires Inv(Now()) && t < |tasks| && tasks[t].stage == Releasing
      modifies this
      ensures Inv(Now()) && locks == old(locks) && guard == old(guard)
      ensures tasks == old(tasks)[t := old(tasks)[t].(held := [])]
      ensures owner == map l | l in old(owner) && old(owner)[l] != t :: old(owner)[l]
    {
      while tasks[t].held != []
        invariant Inv(Now()) && locks == old(locks) && guard == old(guard)
        invariant |tasks| == |old(tasks)| && tasks[t].stage == Releasing
        invariant tasks == old(tasks)[t := old(tasks)[t].(held := tasks[t].held)]
        invariant forall l :: l in owner ==> l in old(owner) && owner[l] == old(owner)[l]
        invariant forall l :: l in old(owner) && old(owner)[l] != t ==> l in owner
        decreases |tasks[t].held|
      {
        StepKeepsInv(Now(), Action.Release(t));
        assert TaskOk(Now(), t);
        var last := tasks[t].held[|tasks[t].held| - 1];
        owner := owner - {last};
        tasks := tasks[t := tasks[t].(held := tasks[t].held[..|tasks[t].held| - 1])];
      }
      assert forall l :: l in owner ==> l in tasks[owner[l]].held;
    }
  }
}
