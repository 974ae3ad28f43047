/** Fan-out of a turn's frames, cached and live. */
module TurnStream {
  import opened Ordering
  import opened Folds

  type Ws = nat

  /** A published frame; only replayable ones are cached. */
  datatype Frame = Frame(body: string, replay: bool)

  /** What a queue holds: frames, and `None` as the sentinel. */
  type Item = Option<Frame>

  function IfReplayable(f: Frame): seq<Frame> {
    if f.replay then [f] else []
  }

  function Replayable(fs: seq<Frame>): seq<Frame> {
    Flat(IfReplayable, fs)
  }

  function IfTerminal(f: Frame): seq<Frame> {
    if f.replay then [] else [f]
  }

  function Terminal(fs: seq<Frame>): seq<Frame> {
    Flat(IfTerminal, fs)
  }

  function Wrap(fs: seq<Frame>): seq<Item> {
    seq(|fs|, i requires 0 <= i < |fs| => Some(fs[i]))
  }

  function IfFrame(item: Item): seq<Frame> {
    if item.Some? then [item.value] else []
  }

  function Unwrap(items: seq<Item>): seq<Frame> {
    Flat(IfFrame, items)
  }

  // ---------------------------------------------------------------- the broadcaster as it is written

  function Appended(queues: map<Ws, seq<Item>>, item: Item): map<Ws, seq<Item>> {
    map w | w in queues :: queues[w] + [item]
  }

  class FrameQueue {
    var items: seq<Item>

    constructor ()
      ensures items == []
    {
      items := [];
    }

    method PutNowait(item: Item)
      modifies this
      ensures items == old(items) + [item]
    {
      items := items + [item];
    }
  }

  ghost predicate Apart(queues: map<Ws, FrameQueue>) {
    forall v, w :: v in queues && w in queues && v != w ==> queues[v] != queues[w]
  }

  method PutEach(queues: map<Ws, FrameQueue>, item: Item)
    requires Apart(queues)
    modifies queues.Values
    ensures forall w :: w in queues ==> queues[w].items == old(queues[w].items) + [item]
  {
    var todo := queues.Keys;
    while todo != {}
      invariant todo <= queues.Keys
      invariant forall w :: w in queues ==>
        queues[w].items == if w in todo then old(queues[w].items) else old(queues[w].items) + [item]
      decreases |todo|
    {
      var w :| w in todo;
      queues[w].PutNowait(item);
      todo := todo - {w};
    }
  }

  class TurnStream {
    var frames: seq<Frame>
    var queues: map<Ws, FrameQueue>

    /** No two subscribers share a queue. */
    ghost predicate Valid()
      reads this
    {
      Apart(queues)
    }

    ghost function Contents(): (c: map<Ws, seq<Item>>)
      reads this, queues.Values
    {
      map w | w in queues :: queues[w].items
    }

    constructor ()
      ensures Valid() && frames == [] && queues == map[]
    {
      frames, queues := [], map[];
    }

    /** `put_nowait` on every queue. */
    method PutAll(item: Item)
      requires Valid()
      modifies queues.Values
      ensures Valid() && Contents() == Appended(old(Contents()), item)
    {
      PutEach(queues, item);
    }

    /** `publish`. */
    method Publish(frame: Frame)
      requires Valid()
      modifies this`frames, queues.Values
      ensures Valid() && queues == old(queues)
      ensures frames == if frame.replay then old(frames) + [frame] else old(frames)
      ensures Contents() == Appended(old(Contents()), Some(frame))
    {
      if frame.replay {
        frames := frames + [frame];
      }
      PutAll(Some(frame));
    }

    /** `subscribe`: the cached frames are put into the queue before it is registered. */
    method Subscribe(w: Ws)
      requires Valid()
      modifies this`queues
      ensures Valid()
      ensures w in old(queues) ==> queues == old(queues) && Contents() == old(Contents())
      ensures w !in old(queues) ==> Contents() == old(Contents())[w := Wrap(frames)]
    {
      if w in queues {
        return;
      }
      var queue := new FrameQueue();
      for i := 0 to |frames|
        invariant queue.items == Wrap(frames[..i])
        invariant fresh(queue) && unchanged(this) && unchanged(queues.Values)
      {
        queue.PutNowait(Some(frames[i]));
        assert frames[..i + 1] == frames[..i] + [frames[i]];
      }
      assert frames[..|frames|] == frames;
      queues := queues[w := queue];
    }

    /** `unsubscribe`. */
    method Unsubscribe(w: Ws)
      requires Valid()
      modifies this`queues
      ensures Valid() && Contents() == old(Contents()) - {w}
    {
      queues := queues - {w};
    }

    /** `finish`: the sentinel to every queue. */
    method Finish()
      requires Valid()
      modifies queues.Values
      ensures Valid() && Contents() == Appended(old(Contents()), None)
    {
      PutAll(None);
    }
  }

  // ---------------------------------------------------------------- subscribers, pumps and connections as steps

  /** A pump waits, sends or has ended: its connection failed, it was cancelled, or it met the sentinel. */
  datatype Pump = Running | Dead | Cancelled | Done

  /** One subscription. `held` is what the pump has taken from the queue and not sent. `joined`, `left` and `mark`
      are positions in the log of published frames: where it subscribed, where it unsubscribed, where the sentinel
      was put into its queue. */
  datatype Sub = Sub(
    joined: nat, left: Option<nat>, mark: Option<nat>, queue: seq<Item>, held: seq<Item>, sent: seq<Frame>,
    pump: Pump)

  /** `log` is everything ever published; `queues` maps a connection to its registered subscription. */
  datatype Stream = Stream(
    log: seq<Frame>, frames: seq<Frame>, queues: map<Ws, nat>, subs: seq<Sub>, finished: Option<nat>)

  datatype Action =
    | Publish(frame: Frame)
    | Subscribe(ws: Ws)
    | Leave(ws: Ws)
    | Finish
    | Take(sub: nat)
    | Deliver(sub: nat)
    | Fail(sub: nat)

  const NEW := Stream([], [], map[], [], None)

  predicate Registered(s: Stream, i: nat) {
    exists w :: w in s.queues && s.queues[w] == i
  }

  function PutOne(sub: Sub, item: Item): Sub {
    sub.(queue := sub.queue + [item])
  }

  /** An item into the queue of every registered subscription. */
  function Put(s: Stream, item: Item): Stream {
    s.(subs := seq(|s.subs|, i requires 0 <= i < |s.subs| =>
      if Registered(s, i) then PutOne(s.subs[i], item) else s.subs[i]))
  }

  function Marked(s: Stream): Stream {
    s.(subs := seq(|s.subs|, i requires 0 <= i < |s.subs| =>
         if Registered(s, i) then s.subs[i].(mark := Some(|s.log|)) else s.subs[i]),
       finished := Some(|s.log|))
  }

  predicate Enabled(s: Stream, a: Action) {
    match a
    case Publish(_) => true
    case Subscribe(_) => true
    case Leave(w) => w in s.queues && s.queues[w] < |s.subs|
    case Finish => s.finished.None?
    case Take(i) => i < |s.subs| && s.subs[i].pump.Running? && s.subs[i].held == [] && s.subs[i].queue != []
    case Deliver(i) => i < |s.subs| && s.subs[i].pump.Running? && s.subs[i].held != [] && s.subs[i].held[0].Some?
    case Fail(i) => i < |s.subs| && s.subs[i].pump.Running? && s.subs[i].held != []
  }

  function Joined(s: Stream): Sub {
    Sub(|s.log|, None, None, Wrap(s.frames), [], [], Running)
  }

  function Apply(s: Stream, a: Action): Stream
    requires Enabled(s, a)
  {
    match a
    case Publish(f) =>
      Put(s, Some(f)).(log := s.log + [f], frames := if f.replay then s.frames + [f] else s.frames)
    case Subscribe(w) =>
      if w in s.queues then s
      else s.(queues := s.queues[w := |s.subs|], subs := s.subs + [Joined(s)])
    case Leave(w) =>
      var sub := s.subs[s.queues[w]];
      s.(queues := s.queues - {w},
         subs := s.subs[s.queues[w] := sub.(left := Some(|s.log|),
                                            pump := if sub.pump.Running? then Cancelled else sub.pump)])
    case Finish => Marked(Put(s, None))
    case Take(i) =>
      var sub := s.subs[i];
      s.(subs := s.subs[i := sub.(queue := sub.queue[1..], held := [sub.queue[0]],
                                  pump := if sub.queue[0].None? then Done else Running)])
    case Deliver(i) =>
      var sub := s.subs[i];
      s.(subs := s.subs[i := sub.(held := [], sent := sub.sent + [sub.held[0].value])])
    case Fail(i) =>
      s.(subs := s.subs[i := s.subs[i].(pump := Dead)])
  }

  // ---------------------------------------------------------------- the invariant

  function End(s: Stream, sub: Sub): nat {
    sub.left.Or(|s.log|)
  }

  predicate InRange(s: Stream, sub: Sub) {
    && sub.joined <= End(s, sub) <= |s.log|
    && (sub.mark.Some? ==> sub.joined <= sub.mark.value <= End(s, sub))
  }

  function Live(log: seq<Frame>, sub: Sub): seq<Item>
    requires sub.joined <= |log| && (sub.mark.Some? ==> sub.joined <= sub.mark.value <= |log|)
  {
    if sub.mark.None? then Wrap(log[sub.joined..])
    else Wrap(log[sub.joined..sub.mark.value]) + [None] + Wrap(log[sub.mark.value..])
  }

  /** What a subscription is owed: the cached frames of before, every frame from when it joined to when it left,
      and the sentinel where the turn ended. */
  function Owed(s: Stream, sub: Sub): seq<Item>
    requires InRange(s, sub)
  {
    Wrap(Replayable(s.log[..sub.joined])) + Live(s.log[..End(s, sub)], sub)
  }

  predicate PumpOk(sub: Sub) {
    match sub.pump
    case Running => sub.left.None? && (sub.held == [] || (|sub.held| == 1 && sub.held[0].Some?))
    case Dead => |sub.held| == 1 && sub.held[0].Some?
    case Cancelled => sub.left.Some? && (sub.held == [] || (|sub.held| == 1 && sub.held[0].Some?))
    case Done => sub.held == [None]
  }

  predicate SubOk(s: Stream, sub: Sub) {
    && InRange(s, sub) && PumpOk(sub)
    && (sub.mark.Some? ==> s.finished == sub.mark)
    && (sub.left.None? ==> sub.mark == s.finished)
    && Wrap(sub.sent) + sub.held + sub.queue == Owed(s, sub)
  }

  ghost predicate SubsOk(s: Stream) {
    forall i {:trigger s.subs[i]} :: 0 <= i < |s.subs| ==> SubOk(s, s.subs[i])
  }

  predicate Bound(s: Stream) {
    forall w :: w in s.queues ==> s.queues[w] < |s.subs|
  }

  /** Connections are registered with subscriptions that have not left, one each. */
  ghost predicate QueuesOk(s: Stream) {
    && Bound(s)
    && (forall v, w :: v in s.queues && w in s.queues && s.queues[v] == s.queues[w] ==> v == w)
    && (forall i :: 0 <= i < |s.subs| ==> (Registered(s, i) <==> s.subs[i].left.None?))
  }

  ghost predicate Inv(s: Stream) {
    SubsOk(s) && QueuesOk(s) && s.frames == Replayable(s.log)
  }

  lemma LiveGrows(log: seq<Frame>, sub: Sub, f: Frame)
    requires sub.joined <= |log| && (sub.mark.Some? ==> sub.joined <= sub.mark.value <= |log|)
    ensures Live(log + [f], sub) == Live(log, sub) + [Some(f)]
  {
    if sub.mark.None? {
      assert (log + [f])[sub.joined..] == log[sub.joined..] + [f];
    } else {
      var m := sub.mark.value;
      assert (log + [f])[sub.joined..m] == log[sub.joined..m] && (log + [f])[m..] == log[m..] + [f];
      assert Wrap(log[m..] + [f]) == Wrap(log[m..]) + [Some(f)];
    }
  }

  lemma PublishSub(s: Stream, f: Frame, i: nat)
    requires Inv(s) && i < |s.subs|
    ensures SubOk(Apply(s, Publish(f)), Apply(s, Publish(f)).subs[i])
  {
    var t := Apply(s, Publish(f));
    var sub := s.subs[i];
    assert t.log[..sub.joined] == s.log[..sub.joined];
    if sub.left.None? {
      assert s.log[..|s.log|] == s.log && t.log[..|t.log|] == s.log + [f];
      LiveGrows(s.log, sub, f);
      assert Wrap(sub.sent) + sub.held + (sub.queue + [Some(f)]) == Wrap(sub.sent) + sub.held + sub.queue + [Some(f)];
    } else {
      assert t.log[..End(s, sub)] == s.log[..End(s, sub)];
    }
  }

  lemma FinishSub(s: Stream, i: nat)
    requires Inv(s) && i < |s.subs| && s.finished.None?
    ensures SubOk(Apply(s, Finish), Apply(s, Finish).subs[i])
  {
    var t := Apply(s, Finish);
    var sub := s.subs[i];
    assert Registered(Put(s, None), i) <==> Registered(s, i);
    if sub.left.None? {
      var log := s.log[..|s.log|];
      assert log == s.log && log[sub.joined..|log|] == log[sub.joined..] && log[|log|..] == [];
      assert Live(log, t.subs[i]) == Live(log, sub) + [None];
      assert Wrap(sub.sent) + sub.held + (sub.queue + [None]) == Wrap(sub.sent) + sub.held + sub.queue + [None];
    }
  }

  lemma SubscribeSub(s: Stream)
    requires Inv(s)
    ensures s.finished.None? ==> SubOk(s, Joined(s))
  {
    assert s.log[..|s.log|] == s.log && s.log[|s.log|..] == [];
  }

  lemma TakeSub(s: Stream, i: nat)
    requires Inv(s) && Enabled(s, Take(i))
    ensures SubOk(Apply(s, Take(i)), Apply(s, Take(i)).subs[i])
  {
    var sub := s.subs[i];
    assert Wrap(sub.sent) + [] + sub.queue == Wrap(sub.sent) + [sub.queue[0]] + sub.queue[1..];
  }

  lemma DeliverSub(s: Stream, i: nat)
    requires Inv(s) && Enabled(s, Deliver(i))
    ensures SubOk(Apply(s, Deliver(i)), Apply(s, Deliver(i)).subs[i])
  {
    var sub := s.subs[i];
    assert Wrap(sub.sent + [sub.held[0].value]) == Wrap(sub.sent) + sub.held;
    assert Wrap(sub.sent) + sub.held + [] == Wrap(sub.sent) + sub.held;
  }

  /** A step that leaves log and end mark alone keeps every subscription it does not touch. */
  lemma UntouchedSub(s: Stream, t: Stream, i: nat)
    requires Inv(s) && i < |s.subs| && i < |t.subs| && t.subs[i] == s.subs[i]
    requires t.log == s.log && t.finished == s.finished
    ensures SubOk(t, t.subs[i])
  {
  }

  lemma LeaveKeeps(s: Stream, w: Ws)
    requires Inv(s) && Enabled(s, Leave(w))
    ensures Inv(Apply(s, Leave(w)))
  {
    var t := Apply(s, Leave(w));
    var k := s.queues[w];
    assert Registered(s, k);
    assert s.log[..End(s, s.subs[k])] == s.log[..|s.log|];
    assert SubOk(t, t.subs[k]);
    forall i | 0 <= i < |t.subs|
      ensures SubOk(t, t.subs[i]) && (Registered(t, i) <==> t.subs[i].left.None?)
    {
      if i != k {
        UntouchedSub(s, t, i);
        assert Registered(t, i) <==> Registered(s, i) by {
          if Registered(s, i) {
            var v :| v in s.queues && s.queues[v] == i;
            assert v in t.queues;
          }
        }
      }
    }
  }

  lemma SubscribeKeeps(s: Stream, w: Ws)
    requires Inv(s) && s.finished.None?
    ensures Inv(Apply(s, Subscribe(w)))
  {
    if w !in s.queues {
      var t := Apply(s, Subscribe(w));
      SubscribeSub(s);
      forall i | 0 <= i < |t.subs|
        ensures SubOk(t, t.subs[i]) && (Registered(t, i) <==> t.subs[i].left.None?)
      {
        if i < |s.subs| {
          UntouchedSub(s, t, i);
          assert Registered(t, i) <==> Registered(s, i) by {
            if Registered(s, i) {
              var v :| v in s.queues && s.queues[v] == i;
              assert v in t.queues && t.queues[v] == i;
            }
          }
        } else {
          assert t.queues[w] == i;
        }
      }
    }
  }

  lemma PumpKeeps(s: Stream, a: Action, k: nat)
    requires Inv(s) && Enabled(s, a) && (a == Take(k) || a == Deliver(k) || a == Fail(k))
    ensures Inv(Apply(s, a))
  {
    var t := Apply(s, a);
    if a.Take? {
      TakeSub(s, k);
    } else if a.Deliver? {
      DeliverSub(s, k);
    } else {
      assert SubOk(t, t.subs[k]);
    }
    forall i | 0 <= i < |t.subs|
      ensures SubOk(t, t.subs[i]) && (Registered(t, i) <==> t.subs[i].left.None?)
    {
      assert Registered(t, i) <==> Registered(s, i);
      if i != k {
        UntouchedSub(s, t, i);
      }
    }
  }

  lemma PublishKeeps(s: Stream, f: Frame)
    requires Inv(s)
    ensures Inv(Apply(s, Publish(f)))
  {
    var t := Apply(s, Publish(f));
    FlatConcat(IfReplayable, s.log, [f]);
    forall i | 0 <= i < |t.subs|
      ensures SubOk(t, t.subs[i]) && (Registered(t, i) <==> t.subs[i].left.None?)
    {
      PublishSub(s, f, i);
      assert Registered(t, i) <==> Registered(s, i);
    }
  }

  lemma FinishKeeps(s: Stream)
    requires Inv(s) && Enabled(s, Finish)
    ensures Inv(Apply(s, Finish))
  {
    var t := Apply(s, Finish);
    forall i | 0 <= i < |t.subs|
      ensures SubOk(t, t.subs[i]) && (Registered(t, i) <==> t.subs[i].left.None?)
    {
      FinishSub(s, i);
      assert Registered(t, i) <==> Registered(s, i);
    }
  }

  /** Every step keeps the invariant, so long as nobody subscribes after the end. */
  lemma StepKeeps(s: Stream, a: Action)
    requires Inv(s) && Enabled(s, a) && (a.Subscribe? ==> s.finished.None?)
    ensures Inv(Apply(s, a))
  {
    match a
    case Publish(f) => PublishKeeps(s, f);
    case Subscribe(w) => SubscribeKeeps(s, w);
    case Leave(w) => LeaveKeeps(s, w);
    case Finish => FinishKeeps(s);
    case Take(i) => PumpKeeps(s, a, i);
    case Deliver(i) => PumpKeeps(s, a, i);
    case Fail(i) => PumpKeeps(s, a, i);
  }

  // ---------------------------------------------------------------- what subscribers get

  /** Everything a subscription was sent, holds or has queued. */
  function Handled(sub: Sub): seq<Frame> {
    Unwrap(Wrap(sub.sent) + sub.held + sub.queue)
  }

  lemma {:induction false} UnwrapWrap(fs: seq<Frame>)
    ensures Unwrap(Wrap(fs)) == fs
  {
    if fs != [] {
      assert Wrap(fs)[1..] == Wrap(fs[1..]);
      UnwrapWrap(fs[1..]);
    }
  }

  lemma UnwrapLive(log: seq<Frame>, sub: Sub)
    requires sub.joined <= |log| && (sub.mark.Some? ==> sub.joined <= sub.mark.value <= |log|)
    ensures Unwrap(Live(log, sub)) == log[sub.joined..]
  {
    if sub.mark.None? {
      UnwrapWrap(log[sub.joined..]);
    } else {
      var a, b := log[sub.joined..sub.mark.value], log[sub.mark.value..];
      UnwrapWrap(a);
      UnwrapWrap(b);
      FlatConcat(IfFrame, Wrap(a), [None]);
      FlatConcat(IfFrame, Wrap(a) + [None], Wrap(b));
      assert a + [] + b == log[sub.joined..];
    }
  }

  /** Late or early, a subscriber handles the cached frames of before it joined and then every frame published
      until it left, each once and in order, whatever its pump has done. */
  lemma HandledExact(s: Stream, i: nat)
    requires Inv(s) && i < |s.subs|
    ensures Handled(s.subs[i])
         == Replayable(s.log[..s.subs[i].joined]) + s.log[s.subs[i].joined..End(s, s.subs[i])]
  {
    var sub := s.subs[i];
    var log := s.log[..End(s, sub)];
    UnwrapWrap(Replayable(s.log[..sub.joined]));
    UnwrapLive(log, sub);
    FlatConcat(IfFrame, Wrap(Replayable(s.log[..sub.joined])), Live(log, sub));
    assert log[sub.joined..] == s.log[sub.joined..End(s, sub)];
  }

  lemma {:induction false} ReplayableTwice(fs: seq<Frame>)
    ensures Replayable(Replayable(fs)) == Replayable(fs) && Terminal(Replayable(fs)) == []
  {
    if fs != [] {
      ReplayableTwice(fs[1..]);
      FlatConcat(IfReplayable, IfReplayable(fs[0]), Replayable(fs[1..]));
      FlatConcat(IfTerminal, IfReplayable(fs[0]), Replayable(fs[1..]));
    }
  }

  /** The replayable frames a registered subscriber handles are the cache, whenever it joined; the terminal frames
      it handles are those published while it was registered. */
  lemma CacheAndTerminal(s: Stream, i: nat)
    requires Inv(s) && i < |s.subs|
    ensures s.subs[i].left.None? ==> Replayable(Handled(s.subs[i])) == s.frames
    ensures Terminal(Handled(s.subs[i])) == Terminal(s.log[s.subs[i].joined..End(s, s.subs[i])])
  {
    var sub := s.subs[i];
    var a, b := s.log[..sub.joined], s.log[sub.joined..End(s, sub)];
    HandledExact(s, i);
    ReplayableTwice(a);
    FlatConcat(IfReplayable, Replayable(a), b);
    FlatConcat(IfTerminal, Replayable(a), b);
    if sub.left.None? {
      assert a + b == s.log;
      FlatConcat(IfReplayable, a, b);
    }
  }

  /** The frames owed before the end mark. */
  function OwedFrames(s: Stream, sub: Sub): seq<Frame>
    requires InRange(s, sub)
  {
    Replayable(s.log[..sub.joined]) + s.log[sub.joined..sub.mark.Or(End(s, sub))]
  }

  lemma OwedStarts(s: Stream, sub: Sub)
    requires InRange(s, sub)
    ensures Wrap(OwedFrames(s, sub)) <= Owed(s, sub)
    ensures sub.mark.None? ==> Wrap(OwedFrames(s, sub)) == Owed(s, sub)
    ensures sub.mark.Some? ==> Wrap(OwedFrames(s, sub)) + [None] <= Owed(s, sub)
  {
    var r, log := Replayable(s.log[..sub.joined]), s.log[..End(s, sub)];
    var m := sub.mark.Or(End(s, sub));
    assert log[sub.joined..m] == s.log[sub.joined..m];
    assert log[sub.joined..] == s.log[sub.joined..End(s, sub)];
    assert Wrap(r + s.log[sub.joined..m]) == Wrap(r) + Wrap(s.log[sub.joined..m]);
  }

  /** Frames in front of anything, against frames in front of a sentinel. */
  lemma FirstSentinel(a: seq<Frame>, rest: seq<Item>, b: seq<Frame>, all: seq<Item>)
    requires all == Wrap(a) + rest && Wrap(b) + [None] <= all
    ensures a <= b
    ensures rest != [] && rest[0] == None ==> a == b
  {
    assert all[|b|] == None;
    forall k | 0 <= k < |a| ensures all[k] == Some(a[k]) {
      assert all[k] == Wrap(a)[k];
    }
    forall k | 0 <= k < |b| ensures all[k] == Some(b[k]) {
      assert all[k] == Wrap(b)[k];
    }
    assert rest != [] ==> all[|a|] == rest[0];
  }

  lemma WrapPrefix(a: seq<Frame>, rest: seq<Item>, b: seq<Frame>)
    requires Wrap(a) + rest == Wrap(b)
    ensures a <= b && None !in rest
  {
    forall k | 0 <= k < |a| ensures a[k] == b[k] {
      assert Wrap(a)[k] == (Wrap(a) + rest)[k] == Wrap(b)[k];
    }
    forall k | 0 <= k < |rest| ensures rest[k] != None {
      assert rest[k] == (Wrap(a) + rest)[|a| + k] == Wrap(b)[|a| + k];
    }
  }

  lemma SentUnmarked(s: Stream, sub: Sub)
    requires SubOk(s, sub) && sub.mark.None?
    ensures sub.sent <= OwedFrames(s, sub) && !sub.pump.Done?
  {
    var rest := sub.held + sub.queue;
    ConcatAssociates(Wrap(sub.sent), sub.held, sub.queue);
    OwedStarts(s, sub);
    WrapPrefix(sub.sent, rest, OwedFrames(s, sub));
    assert sub.held != [] ==> rest[0] == sub.held[0] && rest[0] in rest;
  }

  lemma SentMarked(s: Stream, sub: Sub)
    requires SubOk(s, sub) && sub.mark.Some?
    ensures sub.sent <= OwedFrames(s, sub) && (sub.pump.Done? ==> sub.sent == OwedFrames(s, sub))
  {
    var rest := sub.held + sub.queue;
    ConcatAssociates(Wrap(sub.sent), sub.held, sub.queue);
    OwedStarts(s, sub);
    FirstSentinel(sub.sent, rest, OwedFrames(s, sub), Owed(s, sub));
  }

  /** Whatever became of its pump, a subscriber was sent a prefix of what it is owed; a pump that met the sentinel
      sent all of it. */
  lemma SentExact(s: Stream, i: nat)
    requires Inv(s) && i < |s.subs|
    ensures InRange(s, s.subs[i]) && s.subs[i].sent <= OwedFrames(s, s.subs[i])
    ensures s.subs[i].pump.Done? ==> s.subs[i].sent == OwedFrames(s, s.subs[i]) && s.subs[i].mark.Some?
  {
    assert SubOk(s, s.subs[i]);
    if s.subs[i].mark.None? {
      SentUnmarked(s, s.subs[i]);
    } else {
      SentMarked(s, s.subs[i]);
    }
  }

  /** Steps a pump may still take. */
  function Work(sub: Sub): nat {
    2 * |sub.queue| + |sub.held| + if sub.pump.Running? then 1 else 0
  }

  /** Once the turn has ended no pump waits for ever: a running one has something to take or to send, and each of
      its steps leaves it less to do. */
  lemma PumpsEnd(s: Stream, i: nat)
    requires Inv(s) && s.finished.Some? && i < |s.subs| && s.subs[i].pump.Running?
    ensures Enabled(s, Take(i)) || Enabled(s, Deliver(i))
    ensures forall a {:trigger Enabled(s, a)} ::
      (a == Take(i) || a == Deliver(i) || a == Fail(i)) && Enabled(s, a)
      ==> Work(Apply(s, a).subs[i]) < Work(s.subs[i])
  {
    var sub := s.subs[i];
    if sub.held == [] && sub.queue == [] {
      assert Wrap(sub.sent) + [] + [] == Wrap(sub.sent) + [];
      OwedStarts(s, sub);
      FirstSentinel(sub.sent, [], OwedFrames(s, sub), Owed(s, sub));
    }
  }

  // ---------------------------------------------------------------- the class and the steps agree

  function Queues(s: Stream): map<Ws, seq<Item>>
    requires Bound(s)
  {
    map w | w in s.queues :: s.subs[s.queues[w]].queue
  }

  lemma PutAt(s: Stream, item: Item, w: Ws)
    requires Bound(s) && w in s.queues
    ensures Put(s, item).subs[s.queues[w]].queue == s.subs[s.queues[w]].queue + [item]
  {
    assert Registered(s, s.queues[w]);
  }

  lemma PutQueues(s: Stream, item: Item)
    requires Bound(s)
    ensures Bound(Put(s, item)) && Queues(Put(s, item)) == Appended(Queues(s), item)
  {
    forall w | w in s.queues ensures Put(s, item).subs[s.queues[w]].queue == s.subs[s.queues[w]].queue + [item] {
      PutAt(s, item, w);
    }
  }

  lemma MarkedQueues(s: Stream)
    requires Bound(s)
    ensures Bound(Marked(s)) && Queues(Marked(s)) == Queues(s)
  {
    forall w | w in s.queues ensures Queues(Marked(s))[w] == Queues(s)[w] {
      assert Marked(s).subs[s.queues[w]].queue == s.subs[s.queues[w]].queue;
    }
  }

  lemma LeaveQueues(s: Stream, w: Ws)
    requires Bound(s) && QueuesOk(s) && Enabled(s, Leave(w))
    ensures Bound(Apply(s, Leave(w))) && Queues(Apply(s, Leave(w))) == Queues(s) - {w}
  {
    var t, k := Apply(s, Leave(w)), s.queues[w];
    forall v | v in t.queues ensures Queues(t)[v] == Queues(s)[v] {
      assert s.queues[v] != k;
    }
  }

  lemma SubscribeQueues(s: Stream, w: Ws)
    requires Bound(s)
    ensures Queues(Apply(s, Subscribe(w))) == if w in s.queues then Queues(s) else Queues(s)[w := Wrap(s.frames)]
  {
  }

  /** The steps change the registered queues exactly as the methods of the class do. */
  lemma StepQueues(s: Stream, a: Action)
    requires Inv(s) && Enabled(s, a)
    ensures Bound(Apply(s, a))
    ensures a.Publish? ==> Queues(Apply(s, a)) == Appended(Queues(s), Some(a.frame))
    ensures a.Finish? ==> Queues(Apply(s, a)) == Appended(Queues(s), None)
    ensures a.Leave? ==> Queues(Apply(s, a)) == Queues(s) - {a.ws}
    ensures a.Subscribe? ==>
      Queues(Apply(s, a)) == if a.ws in s.queues then Queues(s) else Queues(s)[a.ws := Wrap(s.frames)]
  {
    match a
    case Publish(f) => PutQueues(s, Some(f));
    case Finish =>
      PutQueues(s, None);
      MarkedQueues(Put(s, None));
    case Leave(w) => LeaveQueues(s, w);
    case Subscribe(w) => SubscribeQueues(s, w);
    case Take(_) =>
    case Deliver(_) =>
    case Fail(_) =>
  }

  // ---------------------------------------------------------------- turns, their registry and the connections

  type Cid = string

  /** `registry` is `_turn_streams`; `attached` is each connection's `subscription`, a stream and a place in it. */
  datatype Hub = Hub(streams: seq<Stream>, cids: seq<Cid>, registry: map<Cid, nat>, attached: map<Ws, (nat, nat)>)

  const EMPTY := Hub([], [], map[], map[])

  datatype Event =
    | Start(ws: Ws, cid: Cid)
    | Switch(ws: Ws, cid: Cid)
    | Drop(ws: Ws)
    | EndTurn(turn: nat)
    | On(turn: nat, action: Action)

  predicate Possible(h: Hub, e: Event) {
    match e
    case Start(_, _) => true
    case Switch(_, _) => true
    case Drop(_) => true
    case EndTurn(k) => k < |h.streams| && k < |h.cids| && Enabled(h.streams[k], Finish)
    case On(k, a) =>
      k < |h.streams| && (a.Publish? || a.Take? || a.Deliver? || a.Fail?) && Enabled(h.streams[k], a)
  }

  /** Give up the subscription made by switching: `unsubscribe`, and the pump is cancelled. */
  function Detach(h: Hub, w: Ws): Hub {
    if w !in h.attached then h
    else
      var k := h.attached[w].0;
      if k < |h.streams| && Enabled(h.streams[k], Leave(w)) then
        h.(streams := h.streams[k := Apply(h.streams[k], Leave(w))], attached := h.attached - {w})
      else h.(attached := h.attached - {w})
  }

  /** Attach to the turn of the conversation switched to, unless subscribed to it already. */
  function Attach(h: Hub, w: Ws, cid: Cid): Hub {
    if cid in h.registry && h.registry[cid] < |h.streams| && w !in h.streams[h.registry[cid]].queues then
      var k := h.registry[cid];
      h.(streams := h.streams[k := Apply(h.streams[k], Subscribe(w))],
         attached := h.attached[w := (k, |h.streams[k].subs|)])
    else h
  }

  function Next(h: Hub, e: Event): Hub {
    if !Possible(h, e) then h
    else
      match e
      case Start(w, cid) =>
        Hub(h.streams + [Apply(NEW, Subscribe(w))], h.cids + [cid],
            if cid != [] then h.registry[cid := |h.streams|] else h.registry, h.attached)
      case Switch(w, cid) => Attach(Detach(h, w), w, cid)
      case Drop(w) => Detach(h, w)
      case EndTurn(k) =>
        var cid := h.cids[k];
        h.(streams := h.streams[k := Apply(h.streams[k], Finish)],
           registry := if cid in h.registry && h.registry[cid] == k then h.registry - {cid} else h.registry)
      case On(k, a) => h.(streams := h.streams[k := Apply(h.streams[k], a)])
  }

  ghost predicate StreamsOk(streams: seq<Stream>) {
    forall k :: 0 <= k < |streams| ==> Inv(streams[k])
  }

  /** A registered turn has not ended. */
  ghost predicate RegistryOk(streams: seq<Stream>, cids: seq<Cid>, registry: map<Cid, nat>) {
    |cids| == |streams|
    && forall c :: c in registry ==>
         registry[c] < |streams| && cids[registry[c]] == c && streams[registry[c]].finished.None?
  }

  predicate Attached(streams: seq<Stream>, w: Ws, at: (nat, nat)) {
    at.0 < |streams| && w in streams[at.0].queues && streams[at.0].queues[w] == at.1
  }

  /** A connection that gives up its subscription unregisters the queue of the very pump it cancels. */
  ghost predicate AttachedOk(streams: seq<Stream>, attached: map<Ws, (nat, nat)>) {
    forall w :: w in attached ==> Attached(streams, w, attached[w])
  }

  ghost predicate HubOk(h: Hub) {
    StreamsOk(h.streams) && RegistryOk(h.streams, h.cids, h.registry) && AttachedOk(h.streams, h.attached)
  }

  lemma ReplaceStream(h: Hub, k: nat, s: Stream)
    requires HubOk(h) && k < |h.streams| && Inv(s) && s.finished == h.streams[k].finished
    ensures StreamsOk(h.streams[k := s]) && RegistryOk(h.streams[k := s], h.cids, h.registry)
  {
  }

  lemma ReplaceAttached(streams: seq<Stream>, attached: map<Ws, (nat, nat)>, k: nat, s: Stream)
    requires AttachedOk(streams, attached) && k < |streams|
    requires forall v :: v in attached && v in streams[k].queues ==>
               v in s.queues && s.queues[v] == streams[k].queues[v]
    ensures AttachedOk(streams[k := s], attached)
  {
    forall v | v in attached ensures Attached(streams[k := s], v, attached[v]) {
      assert Attached(streams, v, attached[v]);
    }
  }

  lemma StartKeeps(h: Hub, w: Ws, cid: Cid)
    requires HubOk(h)
    ensures HubOk(Next(h, Start(w, cid)))
  {
    var n := Next(h, Start(w, cid));
    assert Inv(NEW);
    StepKeeps(NEW, Subscribe(w));
    assert forall v :: v in h.attached ==> Attached(h.streams, v, h.attached[v]);
    assert forall v :: v in n.attached ==> Attached(n.streams, v, n.attached[v]);
    assert StreamsOk(n.streams);
    assert RegistryOk(n.streams, n.cids, n.registry);
  }

  lemma DetachKeeps(h: Hub, w: Ws)
    requires HubOk(h)
    ensures HubOk(Detach(h, w))
  {
    if w in h.attached {
      assert Attached(h.streams, w, h.attached[w]);
      var k := h.attached[w].0;
      var n := Detach(h, w);
      assert Inv(h.streams[k]);
      StepKeeps(h.streams[k], Leave(w));
      ReplaceStream(h, k, Apply(h.streams[k], Leave(w)));
      ReplaceAttached(h.streams, n.attached, k, Apply(h.streams[k], Leave(w)));
    }
  }

  lemma AttachKeeps(h: Hub, w: Ws, cid: Cid)
    requires HubOk(h)
    ensures w !in h.attached ==> HubOk(Attach(h, w, cid))
  {
    if cid in h.registry && w !in h.streams[h.registry[cid]].queues && w !in h.attached {
      var k := h.registry[cid];
      var n := Attach(h, w, cid);
      assert Inv(h.streams[k]);
      StepKeeps(h.streams[k], Subscribe(w));
      ReplaceStream(h, k, Apply(h.streams[k], Subscribe(w)));
      ReplaceAttached(h.streams, h.attached, k, Apply(h.streams[k], Subscribe(w)));
      assert Attached(n.streams, w, n.attached[w]);
    }
  }

  lemma EndTurnKeeps(h: Hub, k: nat)
    requires HubOk(h) && Possible(h, EndTurn(k))
    ensures HubOk(Next(h, EndTurn(k)))
  {
    var n := Next(h, EndTurn(k));
    assert Inv(h.streams[k]);
    StepKeeps(h.streams[k], Finish);
    forall c | c in n.registry
      ensures n.registry[c] < |n.streams| && n.cids[n.registry[c]] == c && n.streams[n.registry[c]].finished.None?
    {
      assert c in h.registry && h.cids[h.registry[c]] == c;
    }
    ReplaceAttached(h.streams, h.attached, k, Apply(h.streams[k], Finish));
  }

  lemma OnKeeps(h: Hub, k: nat, a: Action)
    requires HubOk(h) && Possible(h, On(k, a))
    ensures HubOk(Next(h, On(k, a)))
  {
    var n := Next(h, On(k, a));
    var t := Apply(h.streams[k], a);
    assert Inv(h.streams[k]);
    StepKeeps(h.streams[k], a);
    assert t.queues == h.streams[k].queues && t.finished == h.streams[k].finished;
    ReplaceStream(h, k, t);
    ReplaceAttached(h.streams, h.attached, k, t);
  }

  lemma EventKeeps(h: Hub, e: Event)
    requires HubOk(h)
    ensures HubOk(Next(h, e))
  {
    if Possible(h, e) {
      match e
      case Start(w, cid) => StartKeeps(h, w, cid);
      case Switch(w, cid) =>
        DetachKeeps(h, w);
        assert w !in Detach(h, w).attached;
        AttachKeeps(Detach(h, w), w, cid);
      case Drop(w) => DetachKeeps(h, w);
      case EndTurn(k) => EndTurnKeeps(h, k);
      case On(k, a) => OnKeeps(h, k, a);
    }
  }

  function Run(events: seq<Event>): Hub {
    Fold(Next, EMPTY, events)
  }

  /** In every run, every registered turn is still running, so nobody joins a turn that has ended, and a pump that
      is cancelled is the pump of the queue that is unregistered with it. */
  lemma RunsOk(events: seq<Event>)
    ensures HubOk(Run(events))
  {
    forall h, e | HubOk(h) ensures HubOk(Next(h, e)) {
      EventKeeps(h, e);
    }
    FoldKeeps(Next, HubOk, (e: Event) => true, EMPTY, events);
  }

  /** Fan-out is exact: in every run of turns, connections and pumps, each subscription of each turn handles the
      cached frames of before it joined and every later frame until it left, once and in order; it was sent a prefix
      of them, and all of them up to the end of the turn if its pump met the sentinel; and while it is registered the
      replayable ones are the turn's cache. */
  lemma FanOutExact(events: seq<Event>, k: nat, i: nat)
    requires k < |Run(events).streams| && i < |Run(events).streams[k].subs|
    ensures var s := Run(events).streams[k];
      var sub := s.subs[i];
      && InRange(s, sub)
      && Handled(sub) == Replayable(s.log[..sub.joined]) + s.log[sub.joined..End(s, sub)]
      && (sub.left.None? ==> Replayable(Handled(sub)) == s.frames)
      && sub.sent <= OwedFrames(s, sub)
      && (sub.pump.Done? ==> sub.sent == OwedFrames(s, sub) && s.finished == sub.mark && sub.mark.Some?)
      && (sub.pump.Running? && s.finished.Some? ==> Enabled(s, Take(i)) || Enabled(s, Deliver(i)))
  {
    RunsOk(events);
    var s := Run(events).streams[k];
    assert Inv(s);
    assert SubOk(s, s.subs[i]);
    HandledExact(s, i);
    CacheAndTerminal(s, i);
    SentExact(s, i);
    if s.subs[i].pump.Running? && s.finished.Some? {
      PumpsEnd(s, i);
    }
  }

  // ---------------------------------------------------------------- what each event does, in every run

  lemma RunNext(events: seq<Event>, e: Event)
    ensures Run(events + [e]) == Next(Run(events), e) && HubOk(Run(events)) && HubOk(Run(events + [e]))
  {
    RunsOk(events);
    RunsOk(events + [e]);
    FoldConcat(Next, EMPTY, events, [e]);
    assert Fold(Next, Run(events), [e]) == Next(Run(events), e) by {
      assert [e][1..] == [];
    }
  }

  /** Subscription `i` of turn `k` is new: it has the cached frames in its queue, and its pump has just started. */
  ghost predicate IsNew(h: Hub, k: nat, i: nat, log: seq<Frame>, frames: seq<Frame>) {
    && k < |h.streams| && i < |h.streams[k].subs|
    && var sub := h.streams[k].subs[i];
       && sub.joined == |log| && sub.left.None? && sub.mark.None? && sub.held == [] && sub.sent == []
       && sub.pump.Running?
       && |sub.queue| == |frames| && forall j :: 0 <= j < |frames| ==> sub.queue[j] == Some(frames[j])
  }

  /** The connection was subscribed to turn `k` by starting it, not by switching to it. */
  ghost predicate Originates(h: Hub, w: Ws, k: nat) {
    k < |h.streams| && w in h.streams[k].queues && !(w in h.attached && h.attached[w].0 == k)
  }

  lemma DetachOne(h: Hub, w: Ws, k: nat)
    requires k < |h.streams|
    requires w in h.attached ==> Attached(h.streams, w, h.attached[w]) && Inv(h.streams[h.attached[w].0])
    ensures var d := Detach(h, w);
      && |d.streams| == |h.streams| && d.registry == h.registry && w !in d.attached
      && d.streams[k].log == h.streams[k].log && d.streams[k].frames == h.streams[k].frames
      && |d.streams[k].subs| == |h.streams[k].subs|
      && (w in d.streams[k].queues <==> Originates(h, w, k))
      && (Originates(h, w, k) ==> d.streams[k] == h.streams[k])
  {
  }

  /** Giving up a subscription touches the queues of one turn, and of these one. */
  lemma DetachExact(h: Hub, w: Ws, k: nat)
    requires HubOk(h) && k < |h.streams|
    ensures var d := Detach(h, w);
      && HubOk(d) && |d.streams| == |h.streams| && d.registry == h.registry && w !in d.attached
      && d.streams[k].log == h.streams[k].log && d.streams[k].frames == h.streams[k].frames
      && |d.streams[k].subs| == |h.streams[k].subs|
      && (w in d.streams[k].queues <==> Originates(h, w, k))
      && (Originates(h, w, k) ==> d.streams[k] == h.streams[k])
  {
    DetachKeeps(h, w);
    DetachOne(h, w, k);
  }

  /** Subscribing where the connection has no queue yet. */
  lemma AttachExact(h: Hub, w: Ws, cid: Cid)
    requires HubOk(h) && cid in h.registry && w !in h.attached
    ensures var k, n := h.registry[cid], Attach(h, w, cid);
      && k < |h.streams| == |n.streams| && n.registry == h.registry && w in n.streams[k].queues
      && (if w in h.streams[k].queues then n == h
          else
            && w in n.attached && n.attached[w] == (k, |h.streams[k].subs|)
            && n.streams[k].queues[w] == |h.streams[k].subs|
            && IsNew(n, k, |h.streams[k].subs|, h.streams[k].log, h.streams[k].frames))
  {
  }

  /** In every run, switching to a conversation with a running turn leaves the connection subscribed to that turn: as
      its originator it stays what it was, and otherwise it is given a new subscription, with the cached frames queued
      and a pump, which a later switch gives up. */
  lemma SwitchSubscribes(events: seq<Event>, w: Ws, cid: Cid)
    requires cid in Run(events).registry
    ensures var h, n := Run(events), Run(events + [Switch(w, cid)]);
      var k := h.registry[cid];
      && k < |h.streams| == |n.streams| && n.registry == h.registry && w in n.streams[k].queues
      && (if Originates(h, w, k) then n.streams[k] == h.streams[k] && w !in n.attached
          else
            && w in n.attached && n.attached[w] == (k, |h.streams[k].subs|)
            && n.streams[k].queues[w] == |h.streams[k].subs|
            && IsNew(n, k, |h.streams[k].subs|, h.streams[k].log, h.streams[k].frames))
  {
    RunNext(events, Switch(w, cid));
    DetachExact(Run(events), w, Run(events).registry[cid]);
    AttachExact(Detach(Run(events), w), w, cid);
  }

  /** The subscription that the connection had switched to is given up, its pump cancelled, and no other is touched. */
  ghost predicate GivenUp(h: Hub, n: Hub, w: Ws) {
    w in h.attached
    && var (k, i) := h.attached[w];
       && k < |h.streams| == |n.streams| && i < |h.streams[k].subs| == |n.streams[k].subs|
       && w !in n.streams[k].queues
       && n.streams[k].subs[i].left == Some(|h.streams[k].log|) && !n.streams[k].subs[i].pump.Running?
       && forall j :: 0 <= j < |h.streams[k].subs| && j != i ==> n.streams[k].subs[j] == h.streams[k].subs[j]
  }

  lemma DetachGivesUp(h: Hub, w: Ws)
    requires HubOk(h) && w in h.attached
    ensures GivenUp(h, Detach(h, w), w) && w !in Detach(h, w).attached && Detach(h, w).registry == h.registry
    ensures forall l :: 0 <= l < |h.streams| && l != h.attached[w].0 ==> Detach(h, w).streams[l] == h.streams[l]
  {
    assert Attached(h.streams, w, h.attached[w]);
    assert Inv(h.streams[h.attached[w].0]);
  }

  /** In every run, a connection that drops gives up the subscription it had switched to, and no other turn is
      touched. */
  lemma DropUnsubscribes(events: seq<Event>, w: Ws)
    requires w in Run(events).attached
    ensures var h, n := Run(events), Run(events + [Drop(w)]);
      && GivenUp(h, n, w) && w !in n.attached && n.registry == h.registry
      && forall l :: 0 <= l < |h.streams| && l != h.attached[w].0 ==> n.streams[l] == h.streams[l]
  {
    RunNext(events, Drop(w));
    DetachGivesUp(Run(events), w);
  }

  /** In every run, a connection that switches to another conversation gives up the subscription it had switched to
      before. */
  lemma SwitchUnsubscribes(events: seq<Event>, w: Ws, cid: Cid)
    requires w in Run(events).attached
    requires cid in Run(events).registry ==> Run(events).registry[cid] != Run(events).attached[w].0
    ensures GivenUp(Run(events), Run(events + [Switch(w, cid)]), w)
    ensures cid !in Run(events).registry ==> w !in Run(events + [Switch(w, cid)]).attached
  {
    RunNext(events, Switch(w, cid));
    var h := Run(events);
    DetachGivesUp(h, w);
    assert Attached(h.streams, w, h.attached[w]);
    assert Attach(Detach(h, w), w, cid).streams[h.attached[w].0] == Detach(h, w).streams[h.attached[w].0];
  }

  /** In every run, starting a turn adds a stream with nothing published that its originator alone is subscribed to,
      and a conversation with an id is from then on served by it. */
  lemma StartRegisters(events: seq<Event>, w: Ws, cid: Cid)
    ensures var h, n := Run(events), Run(events + [Start(w, cid)]);
      var k := |h.streams|;
      && |n.streams| == k + 1 && n.streams[..k] == h.streams && n.attached == h.attached
      && n.streams[k].log == [] && n.streams[k].frames == [] && n.streams[k].finished.None?
      && n.streams[k].queues == map[w := 0] && |n.streams[k].subs| == 1 && IsNew(n, k, 0, [], [])
      && n.registry == if cid != [] then h.registry[cid := k] else h.registry
  {
    RunNext(events, Start(w, cid));
  }

  /** An item goes to the end of the queue of every registered subscription, and nothing else of it changes. */
  ghost predicate Queued(s: Stream, t: Stream, item: Item) {
    && t.queues == s.queues && |t.subs| == |s.subs|
    && forall i :: 0 <= i < |s.subs| ==>
         && t.subs[i].queue == s.subs[i].queue + (if s.subs[i].left.None? then [item] else [])
         && t.subs[i].held == s.subs[i].held && t.subs[i].sent == s.subs[i].sent && t.subs[i].pump == s.subs[i].pump
         && t.subs[i].joined == s.subs[i].joined && t.subs[i].left == s.subs[i].left
  }

  /** In every run any frame may be published on any turn: it is logged, cached if replayable, and queued for everybody
      who is subscribed. */
  lemma PublishReaches(events: seq<Event>, k: nat, f: Frame)
    requires k < |Run(events).streams|
    ensures var h, n := Run(events), Run(events + [On(k, Publish(f))]);
      && |n.streams| == |h.streams| && n.registry == h.registry && n.attached == h.attached
      && n.streams[k].log == h.streams[k].log + [f]
      && n.streams[k].frames == h.streams[k].frames + (if f.replay then [f] else [])
      && n.streams[k].finished == h.streams[k].finished && Queued(h.streams[k], n.streams[k], Some(f))
      && (forall l :: 0 <= l < |h.streams| && l != k ==> n.streams[l] == h.streams[l])
  {
    RunNext(events, On(k, Publish(f)));
    assert Inv(Run(events).streams[k]);
  }

  lemma FinishQueues(s: Stream)
    requires Inv(s) && s.finished.None?
    ensures var t := Apply(s, Finish);
      t.log == s.log && t.frames == s.frames && t.finished == Some(|s.log|) && Queued(s, t, None)
  {
    assert forall i :: 0 <= i < |s.subs| ==> (Registered(Put(s, None), i) <==> Registered(s, i));
  }

  /** In every run a turn that has not ended can end: everybody who is subscribed is sent the sentinel, and the
      conversation is served by it no longer. */
  lemma EndReaches(events: seq<Event>, k: nat)
    requires k < |Run(events).streams| && Run(events).streams[k].finished.None?
    ensures var h, n := Run(events), Run(events + [EndTurn(k)]);
      && |n.streams| == |h.streams| && n.attached == h.attached
      && n.streams[k].log == h.streams[k].log && n.streams[k].frames == h.streams[k].frames
      && n.streams[k].finished == Some(|h.streams[k].log|) && Queued(h.streams[k], n.streams[k], None)
      && (forall c :: c in n.registry <==> c in h.registry && h.registry[c] != k)
      && (forall c :: c in n.registry ==> n.registry[c] == h.registry[c])
  {
    RunNext(events, EndTurn(k));
    assert Inv(Run(events).streams[k]);
    FinishQueues(Run(events).streams[k]);
    var h := Run(events);
    assert forall c :: c in h.registry && h.registry[c] == k ==> c == h.cids[k];
  }

  /** In every run a running pump with nothing in its hands takes what is queued first, ending at the sentinel. */
  lemma PumpTakes(events: seq<Event>, k: nat, i: nat)
    requires k < |Run(events).streams| && i < |Run(events).streams[k].subs|
    requires var sub := Run(events).streams[k].subs[i]; sub.pump.Running? && sub.held == [] && sub.queue != []
    ensures var s, n := Run(events).streams[k], Run(events + [On(k, Take(i))]);
      && k < |n.streams|
      && n.streams[k] == s.(subs := s.subs[i := s.subs[i].(
           queue := s.subs[i].queue[1..], held := [s.subs[i].queue[0]],
           pump := if s.subs[i].queue[0].None? then Done else Running)])
  {
    RunNext(events, On(k, Take(i)));
  }

  /** In every run a running pump with a frame in its hands sends just that frame, or dies without sending it. */
  lemma PumpSends(events: seq<Event>, k: nat, i: nat, fails: bool)
    requires k < |Run(events).streams| && i < |Run(events).streams[k].subs|
    requires var sub := Run(events).streams[k].subs[i]; sub.pump.Running? && sub.held != []
    ensures var s, n := Run(events).streams[k], Run(events + [On(k, if fails then Fail(i) else Deliver(i))]);
      && k < |n.streams| && s.subs[i].held[0].Some?
      && n.streams[k] == s.(subs := s.subs[i :=
           if fails then s.subs[i].(pump := Dead)
           else s.subs[i].(held := [], sent := s.subs[i].sent + [s.subs[i].held[0].value])])
  {
    RunNext(events, On(k, if fails then Fail(i) else Deliver(i)));
    assert SubOk(Run(events).streams[k], Run(events).streams[k].subs[i]);
  }
}
