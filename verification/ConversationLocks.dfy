/** One lock per conversation. */
module ConversationLocks {
  import opened Ordering
  import opened Sums

  type Conversation = string
  type TurnId = nat
  type LockId = nat

  /** Where a turn stands inside `per_conversation_lock`.
      - Arriving: at the registry guard
      - InGuard: inside `conversation_lock_for`
      - Waiting: has a reference to the lock and awaits it
      - Inside: inside the `async with` block, with the lock unless there is no conversation
      - Leaving: has released or given up, but its frame still refers to the lock
      - Gone: the frame is gone */
  datatype Stage =
    | Arriving | InGuard | Waiting(lock: LockId) | Inside(got: Option<LockId>) | Leaving(lock: LockId) | Gone

  datatype Turn = Turn(cid: Option<Conversation>, stage: Stage)

  datatype State = State(
    registry: map<Conversation, LockId>, guard: Option<TurnId>, owner: map<LockId, TurnId>, turns: seq<Turn>)

  datatype Action =
    | EnterGuard(t: TurnId)
    | FindLock(t: TurnId)
    | CreateLock(t: TurnId, l: LockId)
    | Acquire(t: TurnId)
    | EnterFree(t: TurnId)   // no conversation: straight into the block
    | Exit(t: TurnId)        // leave the block, releasing the lock
    | Drop(t: TurnId)        // the frame dies and with it the reference
    | Cancel(t: TurnId)
    | Collect(c: Conversation)

  /** Turn `t` keeps lock `l` alive. */
  predicate Refers(s: State, t: TurnId, l: LockId) {
    t < |s.turns| && match s.turns[t].stage
                     case Waiting(m) => l == m
                     case Inside(got) => got == Some(l)
                     case Leaving(m) => l == m
                     case _ => false
  }

  ghost predicate Alive(s: State, l: LockId) {
    exists t: TurnId :: t < |s.turns| && Refers(s, t, l)
  }

  ghost predicate Enabled(s: State, a: Action) {
    match a
    case EnterGuard(t) =>
      t < |s.turns| && s.turns[t].stage == Arriving && s.turns[t].cid.Some? && s.guard == None
    case FindLock(t) =>
      t < |s.turns| && s.turns[t].stage == InGuard && s.turns[t].cid.Some? && s.turns[t].cid.value in s.registry
    case CreateLock(t, l) =>
      && t < |s.turns| && s.turns[t].stage == InGuard && s.turns[t].cid.Some?
      && s.turns[t].cid.value !in s.registry
      && l !in s.registry.Values && l !in s.owner && !Alive(s, l)
    case Acquire(t) => t < |s.turns| && s.turns[t].stage.Waiting? && s.turns[t].stage.lock !in s.owner
    case EnterFree(t) => t < |s.turns| && s.turns[t].stage == Arriving && s.turns[t].cid == None
    case Exit(t) => t < |s.turns| && s.turns[t].stage.Inside?
    case Drop(t) => t < |s.turns| && s.turns[t].stage.Leaving?
    case Cancel(t) => t < |s.turns| && (s.turns[t].stage == Arriving || s.turns[t].stage.Waiting?)
    case Collect(c) => c in s.registry && !Alive(s, s.registry[c])
  }

  function Staged(s: State, t: TurnId, stage: Stage): seq<Turn>
    requires t < |s.turns|
  {
    s.turns[t := s.turns[t].(stage := stage)]
  }

  ghost function Apply(s: State, a: Action): State
    requires Enabled(s, a)
  {
    match a
    case EnterGuard(t) => s.(guard := Some(t), turns := Staged(s, t, InGuard))
    case FindLock(t) =>
      s.(guard := None, turns := Staged(s, t, Waiting(s.registry[s.turns[t].cid.value])))
    case CreateLock(t, l) =>
      s.(registry := s.registry[s.turns[t].cid.value := l], guard := None, turns := Staged(s, t, Waiting(l)))
    case Acquire(t) =>
      s.(owner := s.owner[s.turns[t].stage.lock := t], turns := Staged(s, t, Inside(Some(s.turns[t].stage.lock))))
    case EnterFree(t) => s.(turns := Staged(s, t, Inside(None)))
    case Exit(t) =>
      (match s.turns[t].stage.got
       case None => s.(turns := Staged(s, t, Gone))
       case Some(l) => s.(owner := s.owner - {l}, turns := Staged(s, t, Leaving(l))))
    case Drop(t) => s.(turns := Staged(s, t, Gone))
    case Cancel(t) =>
      (match s.turns[t].stage
       case Waiting(l) => s.(turns := Staged(s, t, Leaving(l)))
       case _ => s.(turns := Staged(s, t, Gone)))
    case Collect(c) => s.(registry := s.registry - {c})
  }

  function Start(cids: seq<Option<Conversation>>): State {
    State(map[], None, map[], seq(|cids|, i requires 0 <= i < |cids| => Turn(cids[i], Arriving)))
  }

  ghost predicate IsRun(s: State, acts: seq<Action>)
    decreases |acts|
  {
    acts != [] ==> Enabled(s, acts[0]) && IsRun(Apply(s, acts[0]), acts[1..])
  }

  ghost function After(s: State, acts: seq<Action>): State
    requires IsRun(s, acts)
    decreases |acts|
  {
    if acts == [] then s else After(Apply(s, acts[0]), acts[1..])
  }

  // ---------------------------------------------------------------- invariant

  /** A turn that refers to a lock refers to the one the registry still has for its conversation. */
  ghost predicate TurnOk(s: State, t: TurnId)
    requires t < |s.turns|
  {
    var k := s.turns[t];
    && (forall l :: Refers(s, t, l) ==> k.cid.Some? && k.cid.value in s.registry && s.registry[k.cid.value] == l)
    && (k.stage == InGuard <==> s.guard == Some(t))
    && (k.stage == InGuard ==> k.cid.Some?)
    && (k.stage.Inside? && k.stage.got.Some? ==> k.stage.got.value in s.owner && s.owner[k.stage.got.value] == t)
    && (k.stage.Inside? && k.stage.got == None ==> k.cid == None)
  }

  ghost predicate Inv(s: State) {
    && (forall c, d :: c in s.registry && d in s.registry && s.registry[c] == s.registry[d] ==> c == d)
    && (forall l :: l in s.owner ==> s.owner[l] < |s.turns| && s.turns[s.owner[l]].stage == Inside(Some(l)))
    && (s.guard.Some? ==> s.guard.value < |s.turns|)
    && (forall t: TurnId :: t < |s.turns| ==> TurnOk(s, t))
  }

  lemma StepKeepsActor(s: State, a: Action)
    requires Inv(s) && Enabled(s, a) && !a.Collect?
    ensures TurnOk(Apply(s, a), a.t)
  {
    assert TurnOk(s, a.t);
    match s.turns[a.t].stage
    case Waiting(l) => assert Refers(s, a.t, l);
    case Inside(got) => assert got.Some? ==> Refers(s, a.t, got.value);
    case Leaving(l) => assert Refers(s, a.t, l);
    case _ =>
  }

  /** A step of one turn, or a collection, leaves the locks of the others registered. */
  lemma StepKeepsOther(s: State, a: Action, t: TurnId)
    requires Inv(s) && Enabled(s, a) && t < |s.turns| && (a.Collect? || t != a.t)
    ensures TurnOk(Apply(s, a), t)
  {
    var r := Apply(s, a);
    assert TurnOk(s, t) && r.turns[t] == s.turns[t];
    assert forall l :: Refers(r, t, l) <==> Refers(s, t, l);
    if a.Collect? {
      assert forall l :: Refers(s, t, l) ==> Alive(s, l);
    } else {
      assert TurnOk(s, a.t);
      assert forall c :: c in s.registry ==> c in r.registry && r.registry[c] == s.registry[c];
      assert forall l :: l in s.owner && s.owner[l] == t ==> l in r.owner && r.owner[l] == t;
    }
  }

  lemma StepKeepsInv(s: State, a: Action)
    requires Inv(s) && Enabled(s, a)
    ensures Inv(Apply(s, a))
  {
    var r := Apply(s, a);
    forall t: TurnId | t < |r.turns| ensures TurnOk(r, t) {
      if a.Collect? || t != a.t {
        StepKeepsOther(s, a, t);
      } else {
        StepKeepsActor(s, a);
      }
    }
    forall x, y | x in r.registry && y in r.registry && r.registry[x] == r.registry[y] ensures x == y {
      assert x in s.registry ==> s.registry[x] in s.registry.Values;
      assert y in s.registry ==> s.registry[y] in s.registry.Values;
    }
  }

  lemma StartInv(cids: seq<Option<Conversation>>)
    ensures Inv(Start(cids))
  {
  }

  lemma StepKeepsCids(s: State, a: Action)
    requires Enabled(s, a)
    ensures |Apply(s, a).turns| == |s.turns|
    ensures forall t :: 0 <= t < |s.turns| ==> Apply(s, a).turns[t].cid == s.turns[t].cid
  {
  }

  lemma {:induction false} RunKeepsInv(s: State, acts: seq<Action>)
    requires Inv(s) && IsRun(s, acts)
    ensures Inv(After(s, acts)) && |After(s, acts).turns| == |s.turns|
    ensures forall t :: 0 <= t < |s.turns| ==> After(s, acts).turns[t].cid == s.turns[t].cid
    decreases |acts|
  {
    if acts != [] {
      var n := Apply(s, acts[0]);
      StepKeepsInv(s, acts[0]);
      StepKeepsCids(s, acts[0]);
      RunKeepsInv(n, acts[1..]);
      assert After(s, acts) == After(n, acts[1..]);
    }
  }

  /** Two turns of one conversation are never inside the block together, whatever is collected when. */
  lemma OneTurnPerConversation(cids: seq<Option<Conversation>>, acts: seq<Action>, t: TurnId, u: TurnId)
    requires IsRun(Start(cids), acts)
    requires t < |cids| && u < |cids| && cids[t] == cids[u] && cids[t].Some?
    requires var s := After(Start(cids), acts);
             t < |s.turns| && u < |s.turns| && s.turns[t].stage.Inside? && s.turns[u].stage.Inside?
    ensures t == u
  {
    var s := After(Start(cids), acts);
    StartInv(cids);
    RunKeepsInv(Start(cids), acts);
    assert TurnOk(s, t) && TurnOk(s, u);
    assert Refers(s, t, s.turns[t].stage.got.value) && Refers(s, u, s.turns[u].stage.got.value);
  }

  /** Every turn that refers to a lock refers to the one a newcomer to its conversation would be given. */
  lemma SharedLock(cids: seq<Option<Conversation>>, acts: seq<Action>, t: TurnId, l: LockId)
    requires IsRun(Start(cids), acts) && Refers(After(Start(cids), acts), t, l)
    ensures t < |cids| && cids[t].Some?
    ensures cids[t].value in After(Start(cids), acts).registry && After(Start(cids), acts).registry[cids[t].value] == l
  {
    StartInv(cids);
    RunKeepsInv(Start(cids), acts);
    assert TurnOk(After(Start(cids), acts), t);
  }

  // ---------------------------------------------------------------- progress and no leak

  ghost predicate Blocked(s: State, t: TurnId) {
    t < |s.turns| && s.turns[t].stage.Waiting? && s.turns[t].stage.lock in s.owner
  }

  /** A turn waits only for a turn of its own conversation, one that is inside the block. */
  lemma BlockedBySameConversation(cids: seq<Option<Conversation>>, acts: seq<Action>, t: TurnId) returns (u: TurnId)
    requires IsRun(Start(cids), acts) && Blocked(After(Start(cids), acts), t)
    ensures t < |cids| && u < |cids| && u != t && cids[t] == cids[u]
    ensures u < |After(Start(cids), acts).turns| && After(Start(cids), acts).turns[u].stage.Inside?
  {
    var s := After(Start(cids), acts);
    StartInv(cids);
    RunKeepsInv(Start(cids), acts);
    var l := s.turns[t].stage.lock;
    u := s.owner[l];
    assert TurnOk(s, t) && TurnOk(s, u) && Refers(s, t, l) && Refers(s, u, l);
  }

  ghost predicate AllGone(s: State) {
    forall t: TurnId :: t < |s.turns| ==> s.turns[t].stage == Gone
  }

  lemma {:induction false} Above(used: set<LockId>) returns (l: LockId)
    ensures forall u :: u in used ==> u < l
  {
    l := 0;
    if used != {} {
      var u :| u in used;
      var m := Above(used - {u});
      l := if u < m then m else u + 1;
      assert forall v :: v in used ==> v == u || v in used - {u};
    }
  }

  lemma UnblockedCanStep(s: State, t: TurnId) returns (a: Action)
    requires Inv(s) && t < |s.turns| && s.turns[t].stage != Gone && !Blocked(s, t)
    requires s.guard == None || s.guard == Some(t)
    ensures Enabled(s, a) && !a.Cancel?
  {
    var k := s.turns[t];
    assert TurnOk(s, t);
    match k.stage
    case Arriving => a := if k.cid.Some? then EnterGuard(t) else EnterFree(t);
    case InGuard =>
      if k.cid.value in s.registry {
        a := FindLock(t);
      } else {
        var l := Above(s.registry.Values + s.owner.Keys);
        forall u: TurnId | u < |s.turns| ensures !Refers(s, u, l) {
          assert TurnOk(s, u);
          var c := s.turns[u].cid;
          assert c.Some? && c.value in s.registry ==> s.registry[c.value] in s.registry.Values;
        }
        a := CreateLock(t, l);
      }
    case Waiting(_) => a := Acquire(t);
    case Inside(_) => a := Exit(t);
    case Leaving(_) => a := Drop(t);
  }

  lemma SomeoneCanStep(s: State) returns (a: Action)
    requires Inv(s) && !AllGone(s)
    ensures Enabled(s, a) && !a.Cancel?
  {
    var t: TurnId :| t < |s.turns| && s.turns[t].stage != Gone;
    if s.guard.Some? {
      assert TurnOk(s, s.guard.value);
      a := UnblockedCanStep(s, s.guard.value);
    } else if Blocked(s, t) {
      a := UnblockedCanStep(s, s.owner[s.turns[t].stage.lock]);
    } else {
      a := UnblockedCanStep(s, t);
    }
  }

  ghost function Work(k: Turn): nat {
    match k.stage
    case Arriving => 6
    case InGuard => 5
    case Waiting(_) => 3
    case Inside(_) => 2
    case Leaving(_) => 1
    case Gone => 0
  }

  ghost function Works(turns: seq<Turn>): seq<nat> {
    seq(|turns|, i requires 0 <= i < |turns| => Work(turns[i]))
  }

  ghost function Measure(s: State): nat {
    Sum(Works(s.turns)) + |s.registry|
  }

  lemma StageDescends(s: State, a: Action)
    requires Inv(s) && Enabled(s, a) && !a.Collect?
    ensures Work(Apply(s, a).turns[a.t]) + (if a.CreateLock? then 1 else 0) < Work(s.turns[a.t])
  {
  }

  lemma RegistrySize(s: State, a: Action)
    requires Enabled(s, a)
    ensures |Apply(s, a).registry| ==
            |s.registry| + (if a.CreateLock? then 1 else 0) - (if a.Collect? then 1 else 0)
  {
    if a.Collect? {
      assert s.registry == (s.registry - {a.c})[a.c := s.registry[a.c]];
    }
  }

  lemma StepDescends(s: State, a: Action)
    requires Inv(s) && Enabled(s, a)
    ensures Measure(Apply(s, a)) < Measure(s)
  {
    RegistrySize(s, a);
    if !a.Collect? {
      var w := Work(Apply(s, a).turns[a.t]);
      StageDescends(s, a);
      SumUpdate(Works(s.turns), a.t, w);
      assert Works(Apply(s, a).turns) == Works(s.turns)[a.t := w];
    }
  }

  lemma {:induction false} RunIsBounded(s: State, acts: seq<Action>)
    requires Inv(s) && IsRun(s, acts)
    ensures |acts| <= Measure(s)
    decreases |acts|
  {
    if acts != [] {
      StepKeepsInv(s, acts[0]);
      StepDescends(s, acts[0]);
      RunIsBounded(Apply(s, acts[0]), acts[1..]);
    }
  }

  lemma {:induction false} StartMeasure(cids: seq<Option<Conversation>>)
    ensures Sum(Works(Start(cids).turns)) == 6 * |cids|
  {
    if cids != [] {
      StartMeasure(cids[1..]);
      assert Works(Start(cids).turns)[1..] == Works(Start(cids[1..]).turns);
    }
  }

  lemma StuckIsEmpty(s: State)
    requires Inv(s) && AllGone(s) && forall a :: !Enabled(s, a)
    ensures s.owner == map[] && s.guard == None && s.registry == map[]
  {
    assert s.owner.Keys == {};
    assert s.guard.Some? ==> TurnOk(s, s.guard.value);
    assert forall c :: c in s.registry ==> !Alive(s, s.registry[c]) && Enabled(s, Collect(c));
    assert s.registry.Keys == {};
  }

  /** Every run ends within six steps a turn, and one that can go no further has let every turn through
      and left no lock, no guard and no registry entry behind. */
  lemma NothingLeaks(cids: seq<Option<Conversation>>, acts: seq<Action>)
    requires IsRun(Start(cids), acts)
    ensures |acts| <= 6 * |cids| && |After(Start(cids), acts).turns| == |cids|
    ensures var s := After(Start(cids), acts);
            (forall a :: !Enabled(s, a)) ==> AllGone(s) && s.owner == map[] && s.guard == None && s.registry == map[]
  {
    var s := After(Start(cids), acts);
    StartInv(cids);
    RunIsBounded(Start(cids), acts);
    StartMeasure(cids);
    RunKeepsInv(Start(cids), acts);
    if forall a :: !Enabled(s, a) {
      if !AllGone(s) {
        var a := SomeoneCanStep(s);
      }
      StuckIsEmpty(s);
    }
  }

  /** While a turn is under way some turn can step without being cancelled. */
  lemma NoDeadlock(cids: seq<Option<Conversation>>, acts: seq<Action>) returns (a: Action)
    requires IsRun(Start(cids), acts) && !AllGone(After(Start(cids), acts))
    ensures Enabled(After(Start(cids), acts), a) && !a.Cancel?
  {
    StartInv(cids);
    RunKeepsInv(Start(cids), acts);
    a := SomeoneCanStep(After(Start(cids), acts));
  }

  // ---------------------------------------------------------------- the block runs

  ghost predicate InsideAt(s: State, acts: seq<Action>, t: TurnId, n: nat) {
    && n <= |acts| && IsRun(s, acts[..n])
    && t < |After(s, acts[..n]).turns| && After(s, acts[..n]).turns[t].stage.Inside?
  }

  /** After some number of the actions turn `t` is inside the block. */
  ghost predicate ComesInside(s: State, acts: seq<Action>, t: TurnId) {
    exists n: nat :: InsideAt(s, acts, t, n)
  }

  lemma ComesInsideNext(s: State, acts: seq<Action>, t: TurnId)
    requires IsRun(s, acts) && acts != [] && t < |s.turns|
    ensures ComesInside(s, acts, t) <==> s.turns[t].stage.Inside? || ComesInside(Apply(s, acts[0]), acts[1..], t)
  {
    var r := Apply(s, acts[0]);
    if s.turns[t].stage.Inside? {
      assert acts[..0] == [];
      assert InsideAt(s, acts, t, 0);
    }
    if n: nat :| InsideAt(s, acts, t, n) {
      if n > 0 {
        assert acts[..n][0] == acts[0] && acts[..n][1..] == acts[1..][..n - 1];
        assert InsideAt(r, acts[1..], t, n - 1);
      }
    }
    if n: nat :| InsideAt(r, acts[1..], t, n) {
      assert acts[..n + 1][0] == acts[0] && acts[..n + 1][1..] == acts[1..][..n];
      assert InsideAt(s, acts, t, n + 1);
    }
  }

  lemma ComesInsideNone(s: State, t: TurnId)
    requires t < |s.turns|
    ensures ComesInside(s, [], t) <==> s.turns[t].stage.Inside?
  {
    if s.turns[t].stage.Inside? {
      assert InsideAt(s, [], t, 0);
    }
  }

  ghost predicate Past(stage: Stage) {
    stage.Inside? || stage.Leaving? || stage == Gone
  }

  lemma {:induction false} PastTheBlock(s: State, acts: seq<Action>, t: TurnId)
    requires IsRun(s, acts) && t < |s.turns| && Past(s.turns[t].stage)
    ensures Cancel(t) !in acts
    ensures ComesInside(s, acts, t) <==> s.turns[t].stage.Inside?
    decreases |acts|
  {
    if acts == [] {
      ComesInsideNone(s, t);
    } else {
      assert acts == [acts[0]] + acts[1..];
      PastTheBlock(Apply(s, acts[0]), acts[1..], t);
      ComesInsideNext(s, acts, t);
    }
  }

  lemma {:induction false} InsideOrCancel(s: State, acts: seq<Action>, t: TurnId)
    requires IsRun(s, acts) && t < |s.turns| && !Past(s.turns[t].stage)
    requires t < |After(s, acts).turns| && After(s, acts).turns[t].stage == Gone
    ensures ComesInside(s, acts, t) <==> Cancel(t) !in acts
    decreases |acts|
  {
    var r := Apply(s, acts[0]);
    assert acts == [acts[0]] + acts[1..];
    ComesInsideNext(s, acts, t);
    if Past(r.turns[t].stage) {
      PastTheBlock(r, acts[1..], t);
    } else {
      InsideOrCancel(r, acts[1..], t);
    }
  }

  /** Turn `t` is inside the block, with the lock of its conversation if it has one. */
  ghost predicate RunsBlock(s: State, t: TurnId, cid: Option<Conversation>) {
    && t < |s.turns| && s.turns[t].stage.Inside?
    && (cid.Some? ==> cid.value in s.registry && s.turns[t].stage == Inside(Some(s.registry[cid.value]))
                      && s.registry[cid.value] in s.owner && s.owner[s.registry[cid.value]] == t)
  }

  lemma HasItsLock(cids: seq<Option<Conversation>>, acts: seq<Action>, t: TurnId)
    requires IsRun(Start(cids), acts) && t < |cids|
    requires t < |After(Start(cids), acts).turns| && After(Start(cids), acts).turns[t].stage.Inside?
    ensures RunsBlock(After(Start(cids), acts), t, cids[t])
  {
    var s := After(Start(cids), acts);
    StartInv(cids);
    RunKeepsInv(Start(cids), acts);
    assert TurnOk(s, t);
    if s.turns[t].stage.got.Some? {
      assert Refers(s, t, s.turns[t].stage.got.value);
    }
  }

  /** A turn that is gone was inside the block, holding its conversation's lock, exactly when it was not cancelled on
      its way there. */
  lemma BlockRunsExact(cids: seq<Option<Conversation>>, acts: seq<Action>, t: TurnId)
    requires IsRun(Start(cids), acts) && t < |cids|
    requires t < |After(Start(cids), acts).turns| && After(Start(cids), acts).turns[t].stage == Gone
    ensures Cancel(t) !in acts <==>
      exists n: nat :: n <= |acts| && IsRun(Start(cids), acts[..n])
        && RunsBlock(After(Start(cids), acts[..n]), t, cids[t])
  {
    InsideOrCancel(Start(cids), acts, t);
    if n: nat :| InsideAt(Start(cids), acts, t, n) {
      HasItsLock(cids, acts[..n], t);
    }
    if n: nat :| n <= |acts| && IsRun(Start(cids), acts[..n]) && RunsBlock(After(Start(cids), acts[..n]), t, cids[t]) {
      assert InsideAt(Start(cids), acts, t, n);
    }
  }

  /** A turn may be cancelled exactly where it waits, for the guard or for its lock; at the guard it is gone at once,
      and otherwise it still refers to the lock, which it does not hold. */
  lemma CancelExact(s: State, t: TurnId)
    requires Inv(s) && t < |s.turns|
    ensures Enabled(s, Cancel(t)) <==> s.turns[t].stage == Arriving || s.turns[t].stage.Waiting?
    ensures Enabled(s, Cancel(t)) ==>
      Apply(s, Cancel(t)) == State(s.registry, s.guard, s.owner, s.turns[t := Turn(s.turns[t].cid,
        if s.turns[t].stage == Arriving then Gone else Leaving(s.turns[t].stage.lock))])
  {
  }

  // ---------------------------------------------------------------- the registry updated in place

  /** The registry object: each method is what a turn, or the collector, does between two awaits. */
  class LockRegistry {
    var registry: map<Conversation, LockId>
    var guard: Option<TurnId>
    var owner: map<LockId, TurnId>
    var turns: seq<Turn>

    ghost function Now(): State
      reads this
    {
      State(registry, guard, owner, turns)
    }

    constructor (cids: seq<Option<Conversation>>)
      ensures Now() == Start(cids)
    {
      registry, guard, owner := map[], None, map[];
      turns := seq(|cids|, i requires 0 <= i < |cids| => Turn(cids[i], Arriving));
    }

    method EnterGuard(t: TurnId)
      requires Enabled(Now(), Action.EnterGuard(t))
      modifies this
      ensures Now() == Apply(old(Now()), Action.EnterGuard(t))
    {
      guard := Some(t);
      turns := turns[t := turns[t].(stage := InGuard)];
    }

    /** The body of `conversation_lock_for`; `unused` is a lock that nothing refers to, the new object if one is
        made. */
    method ConversationLockFor(t: TurnId, unused: LockId) returns (lock: LockId)
      requires t < |turns| && turns[t].stage == InGuard && turns[t].cid.Some?
      requires unused !in registry.Values && unused !in owner && !Alive(Now(), unused)
      modifies this
      ensures var a := if old(turns[t].cid.value in registry) then FindLock(t) else CreateLock(t, unused);
              Enabled(old(Now()), a) && Now() == Apply(old(Now()), a)
      ensures turns[t].stage == Waiting(lock)
    {
      var cid := turns[t].cid.value;
      if cid in registry {
        lock := registry[cid];
      } else {
        lock := unused;
        registry := registry[cid := lock];
      }
      guard := None;
      turns := turns[t := turns[t].(stage := Waiting(lock))];
    }

    method Acquire(t: TurnId)
      requires Enabled(Now(), Action.Acquire(t))
      modifies this
      ensures Now() == Apply(old(Now()), Action.Acquire(t))
    {
      var lock := turns[t].stage.lock;
      owner := owner[lock := t];
      turns := turns[t := turns[t].(stage := Inside(Some(lock)))];
    }

    /** Leaving the block gives the lock back; without a conversation there is none. */
    method Exit(t: TurnId)
      requires Enabled(Now(), Action.Exit(t))
      modifies this
      ensures Now() == Apply(old(Now()), Action.Exit(t))
    {
      match turns[t].stage.got
      case None => turns := turns[t := turns[t].(stage := Gone)];
      case Some(lock) =>
        owner := owner - {lock};
        turns := turns[t := turns[t].(stage := Leaving(lock))];
    }

    /** The entry of a lock that nothing refers to any more vanishes. */
    method Collect(c: Conversation)
      requires Enabled(Now(), Action.Collect(c))
      modifies this
      ensures Now() == Apply(old(Now()), Action.Collect(c))
    {
      registry := registry - {c};
    }
  }
}
