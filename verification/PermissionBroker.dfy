/** Approvals: registered, settled, timed out. */
module PermissionBroker {
  import opened Ordering
  import opened Folds

  type Id = string
  type Cid = string

  datatype Decision = Decision(callId: string, approved: bool)

  /** `_deny_all`. */
  function DenyAll(calls: seq<string>): seq<Decision> {
    seq(|calls|, i requires 0 <= i < |calls| => Decision(calls[i], false))
  }

  /** A refusal of every call, in call order and under the calls' ids. */
  predicate AllRefused(ds: seq<Decision>, calls: seq<string>) {
    |ds| == |calls| && forall i :: 0 <= i < |calls| ==> ds[i].callId == calls[i] && ds[i].approved == false
  }

  /** `Dropped` is a future that was cancelled together with the task waiting for it. */
  datatype Future = Unsettled | Settled(decisions: seq<Decision>) | Dropped

  /** A registered request; `armed` says whether its timer is still to fire. */
  datatype Request = Request(id: Id, cid: Cid, calls: seq<string>, future: Future, armed: bool)

  // ---------------------------------------------------------------- the broker as it is written

  type Table = map<Id, Request>

  predicate Answerable(t: Table, id: Id) {
    id in t && t[id].future.Unsettled?
  }

  function Registered(t: Table, r: Request): Table {
    t[r.id := r]
  }

  function TimedOut(t: Table, id: Id): Table {
    if Answerable(t, id) then t[id := t[id].(future := Settled(DenyAll(t[id].calls)))] else t
  }

  function Resolved(t: Table, id: Id, ds: seq<Decision>): Table {
    if Answerable(t, id) then t[id := t[id].(future := Settled(ds), armed := false)] else t
  }

  function Cleared(t: Table, cid: Cid): Table {
    map id | id in t && t[id].cid != cid :: t[id]
  }

  /** An unsettled request of the conversation. */
  ghost predicate OpenIn(t: Table, id: Id, cid: Cid) {
    Answerable(t, id) && t[id].cid == cid
  }

  ghost predicate FirstOpen(t: Table, keys: seq<Id>, cid: Cid, k: int) {
    0 <= k < |keys| && OpenIn(t, keys[k], cid) && forall j :: 0 <= j < k ==> !OpenIn(t, keys[j], cid)
  }

  class Pending {
    const id: Id
    const cid: Cid
    const calls: seq<string>
    var future: Future
    var armed: bool

    constructor (id: Id, cid: Cid, calls: seq<string>, armed: bool)
      ensures View() == Request(id, cid, calls, Unsettled, armed)
    {
      this.id, this.cid, this.calls := id, cid, calls;
      this.future, this.armed := Unsettled, armed;
    }

    ghost function View(): Request
      reads this
    {
      Request(id, cid, calls, future, armed)
    }

    /** `_settle`. */
    method Settle(ds: seq<Decision>)
      modifies this
      ensures View() == old(View()).(armed := false,
                                     future := if old(future).Unsettled? then Settled(ds) else old(future))
    {
      armed := false;
      if future.Unsettled? {
        future := Settled(ds);
      }
    }
  }

  ghost predicate Apart(entries: map<Id, Pending>) {
    forall a, b :: a in entries && b in entries && a != b ==> entries[a] != entries[b]
  }

  class PermissionBroker {
    const timed: bool
    var pending: map<Id, Pending>

    ghost predicate Valid()
      reads this
    {
      Apart(pending)
    }

    ghost function View(): Table
      reads this, pending.Values
    {
      map id | id in pending :: pending[id].View()
    }

    constructor (timed: bool)
      ensures Valid() && View() == map[] && this.timed == timed
    {
      this.timed, pending := timed, map[];
    }

    /** `register`: under the id the payload carries, or if it carries none under `made`. */
    method Register(given: Option<Id>, made: Id, cid: Cid, calls: seq<string>) returns (id: Id)
      requires Valid()
      modifies this`pending
      ensures id == if given.Some? && given.value != [] then given.value else made
      ensures Valid() && View() == Registered(old(View()), Request(id, cid, calls, Unsettled, timed))
      ensures View() == old(View())[id := Request(id, cid, calls, Unsettled, timed)]
    {
      id := made;
      if given.Some? && given.value != [] {
        id := given.value;
      }
      var p := new Pending(id, cid, calls, timed);
      pending := pending[id := p];
    }

    /** `_on_timeout`. */
    method OnTimeout(id: Id)
      requires Valid()
      modifies pending.Values
      ensures Valid() && View() == TimedOut(old(View()), id)
      ensures id in old(View()) && old(View())[id].future.Unsettled? ==>
        id in View() && View()[id].future.Settled? && AllRefused(View()[id].future.decisions, View()[id].calls)
    {
      if id in pending && pending[id].future.Unsettled? {
        var p := pending[id];
        p.future := Settled(DenyAll(p.calls));
      }
    }

    /** `resolve`. */
    method Resolve(id: Id, ds: seq<Decision>) returns (ok: bool)
      requires Valid()
      modifies pending.Values
      ensures Valid() && View() == Resolved(old(View()), id, ds)
      ensures ok <==> id in old(View()) && old(View())[id].future.Unsettled?
      ensures View() == if ok then old(View())[id := old(View())[id].(future := Settled(ds), armed := false)]
                        else old(View())
    {
      if id !in pending || !pending[id].future.Unsettled? {
        return false;
      }
      pending[id].Settle(ds);
      return true;
    }

    /** Popping an entry and cancelling its timer. */
    method Drop(id: Id)
      requires Valid() && id in pending
      modifies this`pending, pending[id]
      ensures Valid() && pending == old(pending) - {id}
      ensures !old(pending)[id].armed && old(pending)[id].future == old(pending[id].future)
    {
      var p := pending[id];
      pending := pending - {id};
      p.armed := false;
    }

    /** `_discard`: the entry goes, and its timer is cancelled. */
    method Discard(id: Id)
      requires Valid()
      modifies this`pending, if id in pending then {pending[id]} else {}
      ensures Valid() && pending == old(pending) - {id} && View() == old(View()) - {id}
      ensures id in old(pending) ==> old(pending)[id].View() == old(pending[id].View()).(armed := false)
    {
      if id in pending {
        Drop(id);
      }
    }

    /** `_discard` of each of `ids`: they go, and their timers are cancelled. */
    method DiscardEach(ids: set<Id>)
      requires Valid() && ids <= pending.Keys
      modifies this`pending, pending.Values
      ensures pending == old(pending) - ids
      ensures forall a :: a in old(pending) ==> old(pending)[a].future == old(pending[a].future)
      ensures forall a :: a in old(pending) ==> old(pending)[a].armed == (a !in ids && old(pending[a].armed))
    {
      var stale := ids;
      ghost var all := pending;
      while stale != {}
        invariant stale <= ids && pending == all - (ids - stale) && Valid()
        invariant forall a :: a in all ==> all[a].future == old(pending[a].future)
        invariant forall a :: a in all ==> all[a].armed == (a !in ids - stale && old(pending[a].armed))
        decreases |stale|
      {
        var id :| id in stale;
        assert pending[id] == all[id];
        Drop(id);
        stale := stale - {id};
      }
    }

    /** `clear_conversation`: exactly the conversation's entries go, their timers cancelled. */
    method ClearConversation(cid: Cid)
      requires Valid()
      modifies this`pending, pending.Values
      ensures Valid() && View() == Cleared(old(View()), cid)
      ensures forall a :: a in old(pending) && old(pending)[a].cid == cid ==>
                old(pending)[a].View() == old(pending[a].View()).(armed := false)
    {
      var stale := set id | id in pending && pending[id].cid == cid;
      DiscardEach(stale);
    }

    /** `pending_for`, the dict holding its keys in the order `keys`: the first unsettled request of the
        conversation, if there is one. */
    method PendingFor(cid: Cid, keys: seq<Id>) returns (found: Option<(Id, seq<string>)>)
      requires forall id :: id in keys <==> id in pending
      ensures found.None? ==> forall id :: id in View() ==> !OpenIn(View(), id, cid)
      ensures found.Some? ==>
        exists k :: FirstOpen(View(), keys, cid, k) && found.value == (View()[keys[k]].id, View()[keys[k]].calls)
    {
      for k := 0 to |keys|
        invariant forall j :: 0 <= j < k ==> !OpenIn(View(), keys[j], cid)
      {
        var p := pending[keys[k]];
        assert View()[keys[k]] == p.View();
        if p.cid == cid && p.future.Unsettled? {
          assert FirstOpen(View(), keys, cid, k);
          return Some((p.id, p.calls));
        }
      }
      return None;
    }
  }

  // ---------------------------------------------------------------- requests, timers and waiters as steps

  datatype Outcome = Blocked | Returned(decisions: seq<Decision>) | Raised

  /** A call of `wait` that found its request. */
  datatype Wait = Wait(req: nat, cancelled: bool, outcome: Outcome)

  /** `timer` is the request whose timer fired. */
  datatype Cause = ByResponse | ByTimeout(timer: nat)

  /** One setting of a future's result. */
  datatype Settlement = Settlement(req: nat, cause: Cause, decisions: seq<Decision>)

  /** `requests` is everything ever registered, `pending` the table by id, `settlements` the history. `timed` says
      that the broker's timeout is positive. */
  datatype State = State(
    timed: bool, requests: seq<Request>, pending: map<Id, nat>, waits: seq<Wait>, settlements: seq<Settlement>)

  datatype Action =
    | Register(id: Id, cid: Cid, calls: seq<string>)
    | Fire(req: nat)
    | Resolve(id: Id, decisions: seq<Decision>)
    | StartWait(id: Id)
    | Cancel(wait: nat)
    | Wake(wait: nat)
    | Clear(cid: Cid)

  function Init(timed: bool): State {
    State(timed, [], map[], [], [])
  }

  predicate Mapped(s: State, i: nat) {
    i < |s.requests| && s.requests[i].id in s.pending && s.pending[s.requests[i].id] == i
  }

  /** Whether `resolve` would return true. */
  predicate Accepts(s: State, id: Id) {
    id in s.pending && s.pending[id] < |s.requests| && s.requests[s.pending[id]].future.Unsettled?
  }

  /** `set_result` on the future of request `i`. */
  function Settle(s: State, i: nat, cause: Cause, ds: seq<Decision>): State
    requires i < |s.requests|
  {
    s.(requests := s.requests[i := s.requests[i].(future := Settled(ds))],
       settlements := s.settlements + [Settlement(i, cause, ds)])
  }

  function Disarm(s: State, i: nat): State
    requires i < |s.requests|
  {
    s.(requests := s.requests[i := s.requests[i].(armed := false)])
  }

  /** `_discard`: the entry goes and its timer is cancelled; its future is left as it is. */
  function Discard(s: State, id: Id): State {
    if id in s.pending && s.pending[id] < |s.requests| then Disarm(s, s.pending[id]).(pending := s.pending - {id})
    else s
  }

  /** `clear_conversation`. */
  function DiscardAll(s: State, cid: Cid): State {
    s.(requests := seq(|s.requests|, i requires 0 <= i < |s.requests| =>
         if Mapped(s, i) && s.requests[i].cid == cid then s.requests[i].(armed := false) else s.requests[i]),
       pending := map id | id in s.pending && s.pending[id] < |s.requests| && s.requests[s.pending[id]].cid != cid
                  :: s.pending[id])
  }

  predicate Enabled(s: State, a: Action) {
    match a
    case Register(_, _, _) => true
    case Fire(i) => i < |s.requests| && s.requests[i].armed
    case Resolve(_, _) => true
    case StartWait(_) => true
    case Cancel(w) => w < |s.waits| && s.waits[w].outcome.Blocked? && s.waits[w].req < |s.requests|
    case Wake(w) =>
      && w < |s.waits| && s.waits[w].outcome.Blocked? && s.waits[w].req < |s.requests|
      && !s.requests[s.waits[w].req].future.Unsettled?
    case Clear(_) => true
  }

  function Next(s: State, a: Action): State {
    if !Enabled(s, a) then s
    else
      match a
      case Register(id, cid, calls) =>
        s.(requests := s.requests + [Request(id, cid, calls, Unsettled, s.timed)],
           pending := s.pending[id := |s.requests|])
      case Fire(i) =>
        // `_on_timeout` looks the request up by id: what it settles is what is registered under that id now
        var t := Disarm(s, i);
        var id := s.requests[i].id;
        if Accepts(s, id) then Settle(t, s.pending[id], ByTimeout(i), DenyAll(s.requests[s.pending[id]].calls)) else t
      case Resolve(id, ds) =>
        if Accepts(s, id) then Settle(Disarm(s, s.pending[id]), s.pending[id], ByResponse, ds) else s
      case StartWait(id) =>
        if id in s.pending then s.(waits := s.waits + [Wait(s.pending[id], false, Blocked)]) else s
      case Cancel(w) =>
        // cancelling a task cancels the future it waits for
        var i := s.waits[w].req;
        s.(waits := s.waits[w := s.waits[w].(cancelled := true)],
           requests := if s.requests[i].future.Unsettled?
             then s.requests[i := s.requests[i].(future := Dropped)] else s.requests)
      case Wake(w) =>
        var r := s.requests[s.waits[w].req];
        var outcome :=
          if s.waits[w].cancelled || r.future.Dropped? then Raised else Returned(r.future.decisions);
        Discard(s.(waits := s.waits[w := s.waits[w].(outcome := outcome)]), r.id)
      case Clear(cid) => DiscardAll(s, cid)
  }

  function Run(timed: bool, actions: seq<Action>): State {
    Fold(Next, Init(timed), actions)
  }

  // ---------------------------------------------------------------- every run

  ghost predicate TableOk(s: State) {
    forall id :: id in s.pending ==> s.pending[id] < |s.requests| && s.requests[s.pending[id]].id == id
  }

  /** A settlement is what its request's future holds; a timeout denies every call. */
  predicate SettlementOk(s: State, e: Settlement) {
    && e.req < |s.requests| && s.requests[e.req].future == Settled(e.decisions)
    && (e.cause.ByTimeout? ==> e.decisions == DenyAll(s.requests[e.req].calls))
  }

  predicate HasSettlement(s: State, i: nat) {
    exists k :: 0 <= k < |s.settlements| && s.settlements[k].req == i
  }

  ghost predicate HistoryOk(s: State) {
    && (forall k {:trigger s.settlements[k]} :: 0 <= k < |s.settlements| ==> SettlementOk(s, s.settlements[k]))
    && (forall j, k {:trigger s.settlements[j], s.settlements[k]} ::
          0 <= j < k < |s.settlements| ==> s.settlements[j].req != s.settlements[k].req)
    && (forall i {:trigger s.requests[i]} :: 0 <= i < |s.requests| && s.requests[i].future.Settled? ==>
          HasSettlement(s, i))
  }

  predicate WaitOk(s: State, w: Wait) {
    && w.req < |s.requests|
    && (w.outcome.Returned? ==> s.requests[w.req].future == Settled(w.outcome.decisions))
  }

  ghost predicate WaitsOk(s: State) {
    forall w {:trigger s.waits[w]} :: 0 <= w < |s.waits| ==> WaitOk(s, s.waits[w])
  }

  ghost predicate Inv(s: State) {
    TableOk(s) && HistoryOk(s) && WaitsOk(s)
  }

  /** A future that is done stays as it is, whatever happens next. */
  lemma SettledForGood(s: State, a: Action, i: nat)
    requires Inv(s) && i < |s.requests| && !s.requests[i].future.Unsettled?
    ensures i < |Next(s, a).requests| && Next(s, a).requests[i].future == s.requests[i].future
  {
  }

  /** Who a request is does not change. */
  lemma SameRequest(s: State, a: Action, i: nat)
    requires i < |s.requests|
    ensures var r := Next(s, a).requests;
      i < |r| && r[i].id == s.requests[i].id && r[i].cid == s.requests[i].cid && r[i].calls == s.requests[i].calls
  {
  }

  lemma TableKept(s: State, a: Action)
    requires Inv(s)
    ensures TableOk(Next(s, a))
  {
    var t := Next(s, a);
    forall id | id in t.pending ensures t.pending[id] < |t.requests| && t.requests[t.pending[id]].id == id {
      if id in s.pending && t.pending[id] == s.pending[id] {
        SameRequest(s, a, s.pending[id]);
      }
    }
  }

  lemma WaitsKept(s: State, a: Action)
    requires Inv(s)
    ensures WaitsOk(Next(s, a))
  {
    var t := Next(s, a);
    forall w | 0 <= w < |t.waits| ensures WaitOk(t, t.waits[w]) {
      if w < |s.waits| {
        assert WaitOk(s, s.waits[w]);
        SameRequest(s, a, s.waits[w].req);
        if !s.requests[s.waits[w].req].future.Unsettled? {
          SettledForGood(s, a, s.waits[w].req);
        }
      }
    }
  }

  /** What a step settles. */
  function NewSettlement(s: State, a: Action): seq<Settlement> {
    if a.Resolve? && Accepts(s, a.id) then [Settlement(s.pending[a.id], ByResponse, a.decisions)]
    else if a.Fire? && Enabled(s, a) && Accepts(s, s.requests[a.req].id) then
      var i := s.pending[s.requests[a.req].id];
      [Settlement(i, ByTimeout(a.req), DenyAll(s.requests[i].calls))]
    else []
  }

  lemma StepSettles(s: State, a: Action)
    ensures Next(s, a).settlements == s.settlements + NewSettlement(s, a)
  {
  }

  /** A step settles a future only by a settlement. */
  lemma SettledBySettlement(s: State, a: Action, i: nat)
    requires HistoryOk(s) && i < |Next(s, a).requests| && Next(s, a).requests[i].future.Settled?
    ensures HasSettlement(Next(s, a), i)
  {
    var t := Next(s, a);
    StepSettles(s, a);
    if i < |s.requests| && s.requests[i].future.Settled? {
      assert HasSettlement(s, i);
      var k :| 0 <= k < |s.settlements| && s.settlements[k].req == i;
      assert t.settlements[k].req == i;
    } else {
      assert t.settlements[|s.settlements|].req == i;
    }
  }

  lemma HistoryKept(s: State, a: Action)
    requires Inv(s)
    ensures HistoryOk(Next(s, a))
  {
    var t, e := Next(s, a), NewSettlement(s, a);
    StepSettles(s, a);
    forall k | 0 <= k < |t.settlements| ensures SettlementOk(t, t.settlements[k]) {
      if k < |s.settlements| {
        assert SettlementOk(s, s.settlements[k]);
        SettledForGood(s, a, s.settlements[k].req);
        SameRequest(s, a, s.settlements[k].req);
      }
    }
    if e != [] {
      forall k | 0 <= k < |s.settlements| ensures s.settlements[k].req != e[0].req {
        assert SettlementOk(s, s.settlements[k]);
      }
    }
    forall i | 0 <= i < |t.requests| && t.requests[i].future.Settled? ensures HasSettlement(t, i) {
      SettledBySettlement(s, a, i);
    }
  }

  lemma RunsKeep(timed: bool, actions: seq<Action>)
    ensures Inv(Run(timed, actions))
  {
    forall s, a | Inv(s) ensures Inv(Next(s, a)) {
      TableKept(s, a);
      WaitsKept(s, a);
      HistoryKept(s, a);
    }
    FoldKeeps(Next, Inv, (a: Action) => true, Init(timed), actions);
  }

  /** `resolve` succeeds exactly when the id is registered and unsettled; then it settles that request with the
      response, cancels its timer and changes nothing else, and otherwise it changes nothing. */
  lemma ResolveExact(s: State, id: Id, ds: seq<Decision>)
    requires Inv(s)
    ensures !Accepts(s, id) ==> Next(s, Resolve(id, ds)) == s
    ensures Accepts(s, id) ==>
      var t := Next(s, Resolve(id, ds));
      var i := s.pending[id];
      && t.settlements == s.settlements + [Settlement(i, ByResponse, ds)]
      && t.requests == s.requests[i := s.requests[i].(future := Settled(ds), armed := false)]
      && t.pending == s.pending && t.waits == s.waits && !Accepts(t, id)
  {
  }

  /** Settlement `k` is the only one of request `i`, and either a response or a refusal of every call. */
  ghost predicate SoleSettlement(s: State, i: nat, k: nat, ds: seq<Decision>)
    requires i < |s.requests|
  {
    && k < |s.settlements| && s.settlements[k].req == i && s.settlements[k].decisions == ds
    && (s.settlements[k].cause.ByResponse? || ds == DenyAll(s.requests[i].calls))
    && forall j :: 0 <= j < |s.settlements| && s.settlements[j].req == i ==> j == k
  }

  /** What a run settled is settled for good, whatever follows. */
  lemma {:induction false} SettledForEver(s: State, i: nat, actions: seq<Action>)
    requires Inv(s) && i < |s.requests| && !s.requests[i].future.Unsettled?
    ensures var t := Fold(Next, s, actions);
      i < |t.requests| && t.requests[i].future == s.requests[i].future
    decreases |actions|
  {
    if actions != [] {
      SettledForGood(s, actions[0], i);
      TableKept(s, actions[0]);
      WaitsKept(s, actions[0]);
      HistoryKept(s, actions[0]);
      SettledForEver(Next(s, actions[0]), i, actions[1..]);
    }
  }

  /** In every run each request is settled at most once, and exactly when its future has a result: that of an accepted
      response, or the refusal of every call. */
  lemma SettledOnce(timed: bool, actions: seq<Action>, i: nat)
    requires i < |Run(timed, actions).requests|
    ensures var s := Run(timed, actions);
      && (forall j, k :: 0 <= j < k < |s.settlements| && s.settlements[j].req == i ==> s.settlements[k].req != i)
      && (s.requests[i].future.Settled? <==> HasSettlement(s, i))
      && (s.requests[i].future.Settled? ==>
            exists k: nat :: SoleSettlement(s, i, k, s.requests[i].future.decisions))
  {
    RunsKeep(timed, actions);
    var s := Run(timed, actions);
    if HasSettlement(s, i) {
      var k :| 0 <= k < |s.settlements| && s.settlements[k].req == i;
      assert SettlementOk(s, s.settlements[k]);
      assert SoleSettlement(s, i, k, s.requests[i].future.decisions);
    }
  }

  /** In every run, after `resolve` succeeded for a request it never succeeds for that request again, under whatever
      id and whatever happened in between. */
  lemma ResolvedOnce(timed: bool, before: seq<Action>, id: Id, ds: seq<Decision>, after: seq<Action>, other: Id)
    requires Accepts(Run(timed, before), id)
    ensures var s := Run(timed, before); var t := Run(timed, before + [Resolve(id, ds)] + after);
      Accepts(t, other) ==> t.pending[other] != s.pending[id]
  {
    var s, a := Run(timed, before), Resolve(id, ds);
    RunsKeep(timed, before);
    RunsKeep(timed, before + [a]);
    ResolveExact(s, id, ds);
    FoldConcat(Next, Init(timed), before, [a]);
    FoldConcat(Next, Init(timed), before + [a], after);
    assert Fold(Next, s, [a]) == Next(s, a) by {
      assert [a][1..] == [];
    }
    SettledForEver(Next(s, a), s.pending[id], after);
  }

  /** In every run what `wait` returned is what the one settlement of its request set: an accepted response, or the
      refusal of every call. */
  lemma WaitExact(timed: bool, actions: seq<Action>, w: nat)
    requires w < |Run(timed, actions).waits| && Run(timed, actions).waits[w].outcome.Returned?
    ensures var s := Run(timed, actions);
      && s.waits[w].req < |s.requests|
      && exists k: nat :: SoleSettlement(s, s.waits[w].req, k, s.waits[w].outcome.decisions)
  {
    RunsKeep(timed, actions);
    assert WaitOk(Run(timed, actions), Run(timed, actions).waits[w]);
    SettledOnce(timed, actions, Run(timed, actions).waits[w].req);
  }

  // ---------------------------------------------------------------- what can still be settled

  predicate Open(s: State, i: nat) {
    i < |s.requests| && s.requests[i].future.Unsettled?
  }

  /** An open request loses its place in the table exactly when its conversation is cleared, its id is registered
      again, or a waiter wakes that waited for another request of the same id. */
  lemma LosesPlaceExact(s: State, a: Action, i: nat)
    requires Inv(s) && Enabled(s, a) && Mapped(s, i) && Open(s, i) && Open(Next(s, a), i)
    ensures !Mapped(Next(s, a), i) <==>
      || (a.Clear? && a.cid == s.requests[i].cid)
      || (a.Register? && a.id == s.requests[i].id)
      || (a.Wake? && s.requests[s.waits[a.wait].req].id == s.requests[i].id)
  {
    SameRequest(s, a, i);
  }

  /** Once out of the table an open request is out for good, and only cancelling its waiter ends it. */
  lemma OutStaysOut(s: State, a: Action, i: nat)
    requires Inv(s) && Open(s, i) && !Mapped(s, i)
    ensures !Mapped(Next(s, a), i)
    ensures Open(Next(s, a), i) || (a.Cancel? && Enabled(s, a) && s.waits[a.wait].req == i)
  {
    SameRequest(s, a, i);
  }

  ghost predicate NeverCancelled(s: State, i: nat, actions: seq<Action>)
    decreases |actions|
  {
    actions == [] ||
    (!(actions[0].Cancel? && actions[0].wait < |s.waits| && s.waits[actions[0].wait].req == i)
     && NeverCancelled(Next(s, actions[0]), i, actions[1..]))
  }

  lemma {:induction false} OrphanHangs(s: State, i: nat, actions: seq<Action>)
    requires Inv(s) && Open(s, i) && !Mapped(s, i) && NeverCancelled(s, i, actions)
    ensures Open(Fold(Next, s, actions), i)
    decreases |actions|
  {
    if actions != [] {
      var a := actions[0];
      OutStaysOut(s, a, i);
      TableKept(s, a);
      WaitsKept(s, a);
      HistoryKept(s, a);
      OrphanHangs(Next(s, a), i, actions[1..]);
    }
  }

  /** An open request can be settled, at once, exactly when it is in the table; one that is not stays open for ever
      unless its waiter is cancelled. */
  lemma SettleableExact(s: State, i: nat)
    requires Inv(s) && Open(s, i)
    ensures Mapped(s, i) <==>
      exists actions :: NeverCancelled(s, i, actions) && !Open(Fold(Next, s, actions), i)
  {
    if Mapped(s, i) {
      var actions := [Resolve(s.requests[i].id, [])];
      assert Fold(Next, s, actions) == Next(s, actions[0]) by {
        assert actions[1..] == [];
      }
      assert NeverCancelled(Next(s, actions[0]), i, actions[1..]);
      assert NeverCancelled(s, i, actions);
      ResolveExact(s, s.requests[i].id, []);
      assert !Open(Fold(Next, s, actions), i);
    } else {
      forall actions: seq<Action> | NeverCancelled(s, i, actions) ensures Open(Fold(Next, s, actions), i) {
        OrphanHangs(s, i, actions);
      }
    }
  }

  lemma RunThree(timed: bool, actions: seq<Action>)
    requires |actions| == 3
    ensures Run(timed, actions) == Next(Next(Next(Init(timed), actions[0]), actions[1]), actions[2])
  {
    FoldNext(Next, Init(timed), actions, 0);
    FoldNext(Next, Init(timed), actions, 1);
    FoldNext(Next, Init(timed), actions, 2);
    assert actions[..3] == actions && actions[..0] == [];
  }

  /** Clearing a conversation leaves a waiter behind that no response and no timeout can wake. */
  lemma ClearHangs(id: Id, cid: Cid, calls: seq<string>)
    ensures var s := Run(true, [Register(id, cid, calls), StartWait(id), Clear(cid)]);
      |s.waits| == 1 && s.waits[0] == Wait(0, false, Blocked) && Open(s, 0) && !Mapped(s, 0) && !s.requests[0].armed
  {
    var actions := [Register(id, cid, calls), StartWait(id), Clear(cid)];
    RunThree(true, actions);
  }

  /** An id used twice lets the first request's timer refuse the second request, whose own timer is still armed. */
  lemma ReusedIdRefusedEarly(id: Id, cid: Cid, calls: seq<string>)
    ensures var s := Run(true, [Register(id, cid, calls), Register(id, cid, calls), Fire(0)]);
      |s.requests| == 2 && s.requests[1].future == Settled(DenyAll(calls)) && s.requests[1].armed
  {
    RunThree(true, [Register(id, cid, calls), Register(id, cid, calls), Fire(0)]);
  }

  // ---------------------------------------------------------------- which timer refuses which request

  /** A firing timer settles an open request exactly when that request is the one registered now under the timer's
      id: it need not be the request the timer was started for. */
  lemma FireSettlesExact(s: State, j: nat, i: nat)
    requires Inv(s) && Enabled(s, Fire(j)) && Open(s, i)
    ensures !Open(Next(s, Fire(j)), i) <==> Mapped(s, i) && s.requests[j].id == s.requests[i].id
    ensures !Open(Next(s, Fire(j)), i) ==>
      Next(s, Fire(j)).settlements == s.settlements + [Settlement(i, ByTimeout(j), DenyAll(s.requests[i].calls))]
  {
  }

  predicate ForeignTimer(s: State, j: nat, i: nat) {
    j != i && j < |s.requests| && i < |s.requests| && s.requests[j].armed && s.requests[j].id == s.requests[i].id
  }

  /** Some other request's timer could refuse request `i` if it fired now. */
  ghost predicate Threatened(s: State, i: nat) {
    exists j: nat :: j != i && Enabled(s, Fire(j)) && Open(s, i) && !Open(Next(s, Fire(j)), i)
  }

  /** A request is threatened exactly when it is open, in the table, and another timer of its id is armed. */
  lemma ThreatenedExact(s: State, i: nat)
    requires Inv(s)
    ensures Threatened(s, i) <==> Open(s, i) && Mapped(s, i) && exists j: nat :: ForeignTimer(s, j, i)
  {
    if Open(s, i) {
      forall j: nat | j != i && Enabled(s, Fire(j))
        ensures !Open(Next(s, Fire(j)), i) <==> Mapped(s, i) && s.requests[j].id == s.requests[i].id
      {
        FireSettlesExact(s, j, i);
      }
      if j: nat :| ForeignTimer(s, j, i) {
        assert Enabled(s, Fire(j));
      }
      if Threatened(s, i) {
        var j: nat :| j != i && Enabled(s, Fire(j)) && Open(s, i) && !Open(Next(s, Fire(j)), i);
        assert ForeignTimer(s, j, i);
      }
    }
  }

  ghost predicate ArmedUnder(s: State, id: Id) {
    exists j: nat :: j < |s.requests| && s.requests[j].armed && s.requests[j].id == id
  }

  /** A request that is there already does not come under threat: no step arms a timer of its id and leaves it in
      the table. */
  lemma OldThreat(s: State, a: Action, i: nat)
    requires Inv(s) && Enabled(s, a) && i < |s.requests|
    requires Open(Next(s, a), i) && Mapped(Next(s, a), i) && exists j: nat :: ForeignTimer(Next(s, a), j, i)
    ensures Open(s, i) && Mapped(s, i) && exists j: nat :: ForeignTimer(s, j, i)
  {
    var j: nat :| ForeignTimer(Next(s, a), j, i);
    SameRequest(s, a, i);
    if !s.requests[i].future.Unsettled? { SettledForGood(s, a, i); }
    if !Mapped(s, i) { OutStaysOut(s, a, i); }
    if j < |s.requests| {
      SameRequest(s, a, j);
    }
    assert ForeignTimer(s, j, i);
  }

  lemma NewThreat(s: State, a: Action)
    requires Inv(s) && a.Register?
    ensures (exists j: nat :: ForeignTimer(Next(s, a), j, |s.requests|)) <==> ArmedUnder(s, a.id)
  {
    var n, i := Next(s, a), |s.requests|;
    if j: nat :| ForeignTimer(n, j, i) {
      assert j < |s.requests| && s.requests[j].armed && s.requests[j].id == a.id;
    }
    if j: nat :| j < |s.requests| && s.requests[j].armed && s.requests[j].id == a.id {
      assert ForeignTimer(n, j, i);
    }
  }

  /** The one step by which a request comes under threat is its own registration, and then exactly when a timer of
      its id is still armed. */
  lemma ThreatArisesExact(s: State, a: Action, i: nat)
    requires Inv(s) && Enabled(s, a) && !Threatened(s, i)
    ensures Threatened(Next(s, a), i) <==> a.Register? && i == |s.requests| && ArmedUnder(s, a.id)
  {
    var n := Next(s, a);
    TableKept(s, a);
    WaitsKept(s, a);
    HistoryKept(s, a);
    ThreatenedExact(s, i);
    ThreatenedExact(n, i);
    if i < |s.requests| {
      if Threatened(n, i) {
        OldThreat(s, a, i);
      }
    } else if a.Register? && i == |s.requests| {
      NewThreat(s, a);
    }
  }

  /** A request that no timer threatened when it was registered is never threatened, whatever happens then. */
  lemma {:induction false} NeverThreatened(s: State, i: nat, actions: seq<Action>)
    requires Inv(s) && i < |s.requests| && !Threatened(s, i)
    ensures !Threatened(Fold(Next, s, actions), i)
    decreases |actions|
  {
    if actions != [] {
      var a := actions[0];
      if Enabled(s, a) {
        ThreatArisesExact(s, a, i);
        SameRequest(s, a, i);
      }
      TableKept(s, a);
      WaitsKept(s, a);
      HistoryKept(s, a);
      NeverThreatened(Next(s, a), i, actions[1..]);
    }
  }

  // ---------------------------------------------------------------- runs with fresh ids and no clearing

  predicate Fresh(s: State, id: Id) {
    forall i :: 0 <= i < |s.requests| ==> s.requests[i].id != id
  }

  predicate Calm(s: State, a: Action) {
    !a.Clear? && (a.Register? ==> Fresh(s, a.id))
  }

  ghost predicate CalmRun(s: State, actions: seq<Action>)
    decreases |actions|
  {
    actions == [] || (Calm(s, actions[0]) && CalmRun(Next(s, actions[0]), actions[1..]))
  }

  /** Every open request is in the table, with its timer armed. */
  predicate OpenOk(s: State, i: nat) {
    Open(s, i) ==> Mapped(s, i) && s.requests[i].armed == s.timed
  }

  ghost predicate CalmInv(s: State) {
    && Inv(s)
    && (forall i, j {:trigger s.requests[i], s.requests[j]} ::
          0 <= i < |s.requests| && 0 <= j < |s.requests| && s.requests[i].id == s.requests[j].id ==> i == j)
    && (forall i {:trigger s.requests[i]} :: 0 <= i < |s.requests| ==> OpenOk(s, i))
  }

  lemma OpenKept(s: State, a: Action, i: nat)
    requires CalmInv(s) && Calm(s, a) && Enabled(s, a) && i < |Next(s, a).requests|
    ensures OpenOk(Next(s, a), i)
  {
    if i < |s.requests| && Open(Next(s, a), i) {
      SameRequest(s, a, i);
      assert Open(s, i) by {
        if !s.requests[i].future.Unsettled? { SettledForGood(s, a, i); }
      }
      assert OpenOk(s, i);
      LosesPlaceExact(s, a, i);
    }
  }

  lemma IdsKept(s: State, a: Action, i: nat, j: nat)
    requires CalmInv(s) && Calm(s, a) && i < |Next(s, a).requests| && j < |Next(s, a).requests|
    requires Next(s, a).requests[i].id == Next(s, a).requests[j].id
    ensures i == j
  {
    if i < |s.requests| { SameRequest(s, a, i); }
    if j < |s.requests| { SameRequest(s, a, j); }
  }

  lemma CalmKept(s: State, a: Action)
    requires CalmInv(s) && Calm(s, a)
    ensures CalmInv(Next(s, a)) && Next(s, a).timed == s.timed
  {
    var t := Next(s, a);
    TableKept(s, a);
    WaitsKept(s, a);
    HistoryKept(s, a);
    forall i, j | 0 <= i < |t.requests| && 0 <= j < |t.requests| && t.requests[i].id == t.requests[j].id
      ensures i == j
    {
      IdsKept(s, a, i, j);
    }
    if Enabled(s, a) {
      forall i | 0 <= i < |t.requests| ensures OpenOk(t, i) {
        OpenKept(s, a, i);
      }
    }
  }

  lemma {:induction false} CalmRuns(s: State, actions: seq<Action>)
    requires CalmInv(s) && CalmRun(s, actions)
    ensures CalmInv(Fold(Next, s, actions)) && Fold(Next, s, actions).timed == s.timed
    decreases |actions|
  {
    if actions != [] {
      CalmKept(s, actions[0]);
      CalmRuns(Next(s, actions[0]), actions[1..]);
    }
  }

  /** A timeout settlement was made by the timer of the request it settled. */
  ghost predicate OwnTimers(s: State) {
    forall k {:trigger s.settlements[k]} :: 0 <= k < |s.settlements| && s.settlements[k].cause.ByTimeout?
      ==> s.settlements[k].cause.timer == s.settlements[k].req
  }

  lemma OwnTimerKept(s: State, a: Action)
    requires CalmInv(s) && Calm(s, a) && OwnTimers(s)
    ensures OwnTimers(Next(s, a))
  {
    StepSettles(s, a);
    var e := NewSettlement(s, a);
    if e != [] && a.Fire? {
      assert s.requests[e[0].req].id == s.requests[a.req].id;
    }
  }

  /** With fresh ids and no clearing, whether the timeout is positive or not: no other timer ever refuses a request. */
  lemma {:induction false} OnlyOwnTimers(s: State, actions: seq<Action>)
    requires CalmInv(s) && CalmRun(s, actions) && OwnTimers(s)
    ensures OwnTimers(Fold(Next, s, actions))
    ensures forall i: nat :: !Threatened(Fold(Next, s, actions), i)
    decreases |actions|
  {
    if actions == [] {
      forall i: nat ensures !Threatened(s, i) {
        ThreatenedExact(s, i);
      }
    } else {
      CalmKept(s, actions[0]);
      OwnTimerKept(s, actions[0]);
      OnlyOwnTimers(Next(s, actions[0]), actions[1..]);
    }
  }

  /** In every run with fresh ids and no clearing, a request that was refused by a timeout was refused by its own
      timer. */
  lemma RefusedByOwnTimer(timed: bool, actions: seq<Action>, k: nat)
    requires CalmRun(Init(timed), actions) && k < |Run(timed, actions).settlements|
    requires Run(timed, actions).settlements[k].cause.ByTimeout?
    ensures Run(timed, actions).settlements[k].cause.timer == Run(timed, actions).settlements[k].req
  {
    OnlyOwnTimers(Init(timed), actions);
  }

  /** With fresh ids, a positive timeout and no clearing, every open request has an armed timer, and the timer
      firing ends the wait for it with every call refused: no waiter hangs. */
  lemma NobodyHangs(actions: seq<Action>, w: nat)
    requires CalmRun(Init(true), actions)
    requires w < |Run(true, actions).waits| && Run(true, actions).waits[w].outcome.Blocked?
    ensures var s := Run(true, actions);
      var i := s.waits[w].req;
      && i < |s.requests|
      && (Open(s, i) ==>
            && s.requests[i].armed
            && Next(s, Fire(i)).requests[i].future == Settled(DenyAll(s.requests[i].calls))
            && Enabled(Next(s, Fire(i)), Wake(w)))
      && (!Open(s, i) ==> Enabled(s, Wake(w)))
  {
    CalmRuns(Init(true), actions);
    var s := Run(true, actions);
    assert WaitOk(s, s.waits[w]);
    assert OpenOk(s, s.waits[w].req);
  }

  // ---------------------------------------------------------------- the class and the steps agree

  function TableOf(s: State): Table
    requires forall id :: id in s.pending ==> s.pending[id] < |s.requests|
  {
    map id | id in s.pending :: s.requests[s.pending[id]]
  }

  lemma DistinctEntries(s: State)
    requires TableOk(s)
    ensures forall a, b :: a in s.pending && b in s.pending && a != b ==> s.pending[a] != s.pending[b]
  {
  }

  lemma RegisterTable(s: State, a: Action)
    requires TableOk(s) && TableOk(Next(s, a)) && a.Register?
    ensures TableOf(Next(s, a)) == Registered(TableOf(s), Request(a.id, a.cid, a.calls, Unsettled, s.timed))
  {
  }

  lemma ResolveTable(s: State, a: Action)
    requires TableOk(s) && TableOk(Next(s, a)) && a.Resolve?
    ensures TableOf(Next(s, a)) == Resolved(TableOf(s), a.id, a.decisions)
  {
    DistinctEntries(s);
  }

  lemma ClearTable(s: State, cid: Cid)
    requires TableOk(s) && TableOk(DiscardAll(s, cid))
    ensures TableOf(DiscardAll(s, cid)) == Cleared(TableOf(s), cid)
  {
    var t := DiscardAll(s, cid);
    forall id | id in t.pending ensures t.requests[t.pending[id]] == s.requests[s.pending[id]] {
      assert s.requests[s.pending[id]].cid != cid;
    }
  }

  lemma SettleTable(s: State, id: Id, cause: Cause, ds: seq<Decision>)
    requires TableOk(s) && id in s.pending
    ensures var t := Settle(s, s.pending[id], cause, ds);
      TableOk(t) && TableOf(t) == TableOf(s)[id := TableOf(s)[id].(future := Settled(ds))]
  {
    DistinctEntries(s);
  }

  /** A firing timer first stops being armed, then does what `_on_timeout` does. */
  lemma FireTable(s: State, i: nat)
    requires TableOk(s) && Enabled(s, Fire(i))
    ensures TableOk(Disarm(s, i)) && TableOk(Next(s, Fire(i)))
    ensures TableOf(Next(s, Fire(i))) == TimedOut(TableOf(Disarm(s, i)), s.requests[i].id)
  {
    var d, id := Disarm(s, i), s.requests[i].id;
    assert TableOk(d) && (Accepts(s, id) <==> Answerable(TableOf(d), id));
    if Accepts(s, id) {
      SettleTable(d, id, ByTimeout(i), DenyAll(s.requests[s.pending[id]].calls));
    }
  }

  /** A waiter that wakes takes its request's id out of the table and leaves the rest. */
  lemma WakeTable(s: State, w: nat)
    requires TableOk(s) && TableOk(Next(s, Wake(w))) && Enabled(s, Wake(w))
    ensures TableOf(Next(s, Wake(w))) == TableOf(s) - {s.requests[s.waits[w].req].id}
  {
    var n, id := Next(s, Wake(w)), s.requests[s.waits[w].req].id;
    forall x | x in s.pending && x != id ensures n.requests[n.pending[x]] == s.requests[s.pending[x]] {
      assert id in s.pending ==> s.pending[x] != s.pending[id];
    }
  }

  /** The steps change the table exactly as the methods of the class do. */
  lemma StepTable(s: State, a: Action)
    requires Inv(s) && Enabled(s, a)
    ensures TableOk(Next(s, a))
    ensures match a
      case Register(id, cid, calls) =>
        TableOf(Next(s, a)) == Registered(TableOf(s), Request(id, cid, calls, Unsettled, s.timed))
      case Resolve(id, ds) => TableOf(Next(s, a)) == Resolved(TableOf(s), id, ds)
      case Clear(cid) => TableOf(Next(s, a)) == Cleared(TableOf(s), cid)
      case Fire(i) => TableOk(Disarm(s, i)) && TableOf(Next(s, a)) == TimedOut(TableOf(Disarm(s, i)), s.requests[i].id)
      case Wake(w) => TableOf(Next(s, a)) == TableOf(s) - {s.requests[s.waits[w].req].id}
      case StartWait(_) => TableOf(Next(s, a)) == TableOf(s)
      case Cancel(_) => true
  {
    TableKept(s, a);
    match a
    case Register(_, _, _) => RegisterTable(s, a);
    case Resolve(_, _) => ResolveTable(s, a);
    case Clear(cid) => ClearTable(s, cid);
    case Fire(i) => FireTable(s, i);
    case Wake(w) => WakeTable(s, w);
    case StartWait(_) =>
    case Cancel(_) =>
  }

  // ---------------------------------------------------------------- from registering to what is returned

  /** In every run every settlement by a timeout refuses every call of its request, and so does the future it set. */
  lemma TimeoutRefuses(timed: bool, actions: seq<Action>, k: nat)
    requires k < |Run(timed, actions).settlements| && Run(timed, actions).settlements[k].cause.ByTimeout?
    ensures var s := Run(timed, actions); var e := s.settlements[k];
      && e.req < |s.requests| && AllRefused(e.decisions, s.requests[e.req].calls)
      && s.requests[e.req].future == Settled(e.decisions)
  {
    RunsKeep(timed, actions);
    assert SettlementOk(Run(timed, actions), Run(timed, actions).settlements[k]);
  }

  lemma RunFour(s: State, a: Action, b: Action, c: Action, d: Action)
    ensures Fold(Next, s, [a, b, c, d]) == Next(Next(Next(Next(s, a), b), c), d)
  {
    assert [a, b, c, d][1..] == [b, c, d] && [b, c, d][1..] == [c, d] && [c, d][1..] == [d] && [d][1..] == [];
    assert Fold(Next, s, [a, b, c, d]) == Fold(Next, Next(s, a), [b, c, d]);
    assert Fold(Next, Next(s, a), [b, c, d]) == Fold(Next, Next(Next(s, a), b), [c, d]);
    assert Fold(Next, Next(Next(s, a), b), [c, d]) == Fold(Next, Next(Next(Next(s, a), b), c), [d]);
    assert Fold(Next, Next(Next(Next(s, a), b), c), [d]) == Next(Next(Next(Next(s, a), b), c), d);
  }

  /** A request that came to its end: its waiter has this outcome, its id is out of the table and its timer is
      cancelled; other ids, requests and waiters are as they were. */
  ghost predicate Ended(s: State, t: State, id: Id, cid: Cid, calls: seq<string>, future: Future, outcome: Outcome) {
    && t.requests == s.requests + [Request(id, cid, calls, future, false)]
    && t.pending == s.pending - {id}
    && |t.waits| == |s.waits| + 1 && t.waits[..|s.waits|] == s.waits
    && t.waits[|s.waits|].req == |s.requests| && t.waits[|s.waits|].outcome == outcome
  }

  /** A request that was just registered and is waited for. */
  ghost function Asked(s: State, r: Request, cancelled: bool, more: seq<Settlement>): State {
    s.(requests := s.requests + [r], pending := s.pending[r.id := |s.requests|],
       waits := s.waits + [Wait(|s.requests|, cancelled, Blocked)], settlements := s.settlements + more)
  }

  lemma AskedExact(s: State, id: Id, cid: Cid, calls: seq<string>)
    ensures Next(Next(s, Register(id, cid, calls)), StartWait(id))
         == Asked(s, Request(id, cid, calls, Unsettled, s.timed), false, [])
  {
    assert s.settlements + [] == s.settlements;
  }

  lemma AskedAnswered(s: State, id: Id, cid: Cid, calls: seq<string>, ds: seq<Decision>)
    ensures Next(Asked(s, Request(id, cid, calls, Unsettled, s.timed), false, []), Resolve(id, ds))
         == Asked(s, Request(id, cid, calls, Settled(ds), false), false,
                  [Settlement(|s.requests|, ByResponse, ds)])
  {
  }

  lemma AskedTimedOut(s: State, id: Id, cid: Cid, calls: seq<string>)
    requires s.timed
    ensures var ds := DenyAll(calls);
      Next(Asked(s, Request(id, cid, calls, Unsettled, s.timed), false, []), Fire(|s.requests|))
      == Asked(s, Request(id, cid, calls, Settled(ds), false), false,
               [Settlement(|s.requests|, ByTimeout(|s.requests|), ds)])
  {
  }

  lemma AskedCancelled(s: State, id: Id, cid: Cid, calls: seq<string>)
    ensures Next(Asked(s, Request(id, cid, calls, Unsettled, s.timed), false, []), Cancel(|s.waits|))
         == Asked(s, Request(id, cid, calls, Dropped, s.timed), true, [])
  {
  }

  lemma WakeEnds(s: State, r: Request, cancelled: bool, more: seq<Settlement>)
    requires Inv(s) && !r.future.Unsettled?
    ensures var t := Next(Asked(s, r, cancelled, more), Wake(|s.waits|));
      && t.settlements == s.settlements + more
      && Ended(s, t, r.id, r.cid, r.calls, r.future,
               if cancelled || r.future.Dropped? then Raised else Returned(r.future.decisions))
  {
  }

  /** In any state: a request that is registered, waited for and answered returns the answer to its waiter. */
  lemma AnswerReturns(s: State, id: Id, cid: Cid, calls: seq<string>, ds: seq<Decision>)
    requires Inv(s)
    ensures var t := Fold(Next, s, [Register(id, cid, calls), StartWait(id), Resolve(id, ds), Wake(|s.waits|)]);
      && Ended(s, t, id, cid, calls, Settled(ds), Returned(ds))
      && t.settlements == s.settlements + [Settlement(|s.requests|, ByResponse, ds)]
  {
    var r, e := Request(id, cid, calls, Settled(ds), false), [Settlement(|s.requests|, ByResponse, ds)];
    RunFour(s, Register(id, cid, calls), StartWait(id), Resolve(id, ds), Wake(|s.waits|));
    AskedExact(s, id, cid, calls);
    AskedAnswered(s, id, cid, calls, ds);
    WakeEnds(s, r, false, e);
  }

  /** In any state of a broker with a timeout: a request that nobody answers returns a refusal of every call. */
  lemma TimeoutReturns(s: State, id: Id, cid: Cid, calls: seq<string>) returns (ds: seq<Decision>)
    requires Inv(s) && s.timed
    ensures AllRefused(ds, calls)
    ensures var t := Fold(Next, s, [Register(id, cid, calls), StartWait(id), Fire(|s.requests|), Wake(|s.waits|)]);
      && Ended(s, t, id, cid, calls, Settled(ds), Returned(ds))
      && t.settlements == s.settlements + [Settlement(|s.requests|, ByTimeout(|s.requests|), ds)]
  {
    ds := DenyAll(calls);
    var r, e := Request(id, cid, calls, Settled(ds), false), [Settlement(|s.requests|, ByTimeout(|s.requests|), ds)];
    RunFour(s, Register(id, cid, calls), StartWait(id), Fire(|s.requests|), Wake(|s.waits|));
    AskedExact(s, id, cid, calls);
    AskedTimedOut(s, id, cid, calls);
    WakeEnds(s, r, false, e);
  }

  /** In any state: a waiter that is cancelled raises, and its request is dropped with it. */
  lemma CancelRaises(s: State, id: Id, cid: Cid, calls: seq<string>)
    requires Inv(s)
    ensures var t := Fold(Next, s, [Register(id, cid, calls), StartWait(id), Cancel(|s.waits|), Wake(|s.waits|)]);
      Ended(s, t, id, cid, calls, Dropped, Raised) && t.settlements == s.settlements
  {
    var r := Request(id, cid, calls, Dropped, s.timed);
    RunFour(s, Register(id, cid, calls), StartWait(id), Cancel(|s.waits|), Wake(|s.waits|));
    AskedExact(s, id, cid, calls);
    AskedCancelled(s, id, cid, calls);
    WakeEnds(s, r, true, []);
    assert s.settlements + [] == s.settlements;
  }

  /** In any state: clearing a conversation takes just its ids out of the table and cancels just their timers; nothing
      is settled and no waiter is woken. */
  lemma ClearExact(s: State, cid: Cid)
    requires Inv(s)
    ensures var t := Next(s, Clear(cid));
      && (forall id :: id in t.pending <==> id in s.pending && s.requests[s.pending[id]].cid != cid)
      && (forall id :: id in t.pending ==> t.pending[id] == s.pending[id])
      && t.waits == s.waits && t.settlements == s.settlements && |t.requests| == |s.requests|
      && forall i :: 0 <= i < |s.requests| ==>
           t.requests[i] == if s.requests[i].id in s.pending && s.pending[s.requests[i].id] == i
                               && s.requests[i].cid == cid
                            then s.requests[i].(armed := false) else s.requests[i]
  {
  }
}
