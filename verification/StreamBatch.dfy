/** Batching a streamed reply. */
module StreamBatch {
  import opened Ordering
  import opened Folds

  /** Chunks are gathered into batches, yielded when large or old enough; tool events and approval requests pass
      straight through; a round that stops for an approval is followed by the next one. */
  const BATCH_SIZE := 30
  const FLUSH_INTERVAL := 0.05
  const FALLBACK := "Conversation reached the step limit; please retry or reset."

  /** What the graph's stream delivers: a message chunk split into its parts, a tool event, or something that is
      not part of the reply. `now` is the clock when it is handled. */
  datatype Event =
    | Chunk(content: string, reasoning: string, now: real)
    | Tool(event: string, now: real)
    | Other

  /** One pass over the graph: it ends normally or in the recursion error, and then maybe in a request. */
  datatype Round = Round(start: real, events: seq<Event>, exceeded: bool, request: Option<string>)

  /** What the caller is yielded. */
  datatype Piece = Content(text: string) | Reasoning(text: string) | ToolEvent(event: string) | Request(id: string)

  datatype State = State(
    out: seq<Piece>, full: string, fullReasoning: string, content: string, reasoning: string, lastFlush: real)

  const START := State([], [], [], [], [], 0.0)

  function YieldReasoning(s: State): State {
    if s.reasoning != [] then s.(out := s.out + [Reasoning(s.reasoning)], reasoning := []) else s
  }

  function YieldContent(s: State): State {
    if s.content != [] then s.(out := s.out + [Content(s.content)], content := []) else s
  }

  function Drain(s: State): State {
    YieldContent(YieldReasoning(s))
  }

  predicate Full(pending: string, due: bool) {
    pending != [] && (|pending| >= BATCH_SIZE || due)
  }

  function FlushReasoning(s: State, due: bool, now: real): State {
    if Full(s.reasoning, due) then YieldReasoning(s).(lastFlush := now) else s
  }

  function FlushContent(s: State, due: bool, now: real): State {
    if Full(s.content, due) then YieldContent(s).(lastFlush := now) else s
  }

  function Receive(s: State, content: string, reasoning: string): State {
    s.(full := s.full + content, fullReasoning := s.fullReasoning + reasoning,
       content := s.content + content, reasoning := s.reasoning + reasoning)
  }

  function Step(s: State, e: Event): State {
    match e
    case Other => s
    case Tool(event, now) => var d := Drain(s); d.(out := d.out + [ToolEvent(event)], lastFlush := now)
    case Chunk(c, r, now) =>
      if c == [] && r == [] then s
      else
        var due := now - s.lastFlush >= FLUSH_INTERVAL;
        FlushContent(FlushReasoning(Receive(s, c, r), due, now), due, now)
  }

  function Begin(s: State, start: real): State {
    s.(content := [], reasoning := [], lastFlush := start)
  }

  function Pass(s: State, r: Round): State {
    Fold(Step, Begin(s, r.start), r.events)
  }

  /** The recursion error: the batch that is still pending is dropped and the fallback yielded. */
  function GiveUp(s: State): State {
    s.(full := if s.full == [] then FALLBACK else s.full, content := [], reasoning := [],
       out := s.out + [Content(FALLBACK)])
  }

  function Run(s: State, rounds: seq<Round>, hasWaiter: bool): State
    decreases |rounds|
  {
    if rounds == [] then s
    else
      var p := Pass(s, rounds[0]);
      if rounds[0].exceeded then GiveUp(p)
      else
        var d := Drain(p);
        if rounds[0].request.None? || !hasWaiter then d
        else Run(d.(out := d.out + [Request(rounds[0].request.value)]), rounds[1..], hasWaiter)
  }

  /** One pass: the body of the `async for`. */
  method StreamRound(s: State, events: seq<Event>) returns (t: State)
    ensures t == Fold(Step, s, events)
  {
    var out, full, fullReasoning := s.out, s.full, s.fullReasoning;
    var pendingContent, pendingReasoning, lastFlush := s.content, s.reasoning, s.lastFlush;
    for i := 0 to |events|
      invariant State(out, full, fullReasoning, pendingContent, pendingReasoning, lastFlush)
             == Fold(Step, s, events[..i])
    {
      FoldNext(Step, s, events, i);
      match events[i] {
        case Other =>
        case Tool(event, now) =>
          if pendingReasoning != [] {
            out, pendingReasoning := out + [Reasoning(pendingReasoning)], [];
          }
          if pendingContent != [] {
            out, pendingContent := out + [Content(pendingContent)], [];
          }
          lastFlush := now;
          out := out + [ToolEvent(event)];
        case Chunk(content, reasoning, now) =>
          assert content == [] ==> full + content == full && pendingContent + content == pendingContent;
          assert reasoning == [] ==>
              fullReasoning + reasoning == fullReasoning && pendingReasoning + reasoning == pendingReasoning;
          if content != [] {
            full, pendingContent := full + content, pendingContent + content;
          }
          if reasoning != [] {
            fullReasoning, pendingReasoning := fullReasoning + reasoning, pendingReasoning + reasoning;
          }
          if content != [] || reasoning != [] {
            var due := now - lastFlush >= FLUSH_INTERVAL;
            if pendingReasoning != [] && (|pendingReasoning| >= BATCH_SIZE || due) {
              out, pendingReasoning, lastFlush := out + [Reasoning(pendingReasoning)], [], now;
            }
            if pendingContent != [] && (|pendingContent| >= BATCH_SIZE || due) {
              out, pendingContent, lastFlush := out + [Content(pendingContent)], [], now;
            }
          }
      }
    }
    assert events[..|events|] == events;
    t := State(out, full, fullReasoning, pendingContent, pendingReasoning, lastFlush);
  }

  /** A persisted reply: its text, and the thoughts if there are any. */
  datatype Reply = Reply(content: string, reasoning: Option<string>)

  /** What is persisted at the end: nothing at all without visible text. */
  function Persisted(s: State): Option<Reply> {
    if s.full != [] then Some(Reply(s.full, if s.fullReasoning != [] then Some(s.fullReasoning) else None)) else None
  }

  /** The resume loop. `rounds` are the passes the graph makes, as far as they have come. */
  method StreamRounds(rounds: seq<Round>, hasWaiter: bool) returns (t: State)
    ensures t == Run(START, rounds, hasWaiter)
  {
    t := START;
    var i := 0;
    while i < |rounds|
      invariant 0 <= i <= |rounds|
      invariant Run(START, rounds, hasWaiter) == Run(t, rounds[i..], hasWaiter)
      decreases |rounds| - i
    {
      assert rounds[i..][0] == rounds[i] && rounds[i..][1..] == rounds[i + 1..];
      t := StreamRound(Begin(t, rounds[i].start), rounds[i].events);
      if rounds[i].exceeded {
        t := GiveUp(t);
        return;
      }
      t := Drain(t);
      if rounds[i].request.None? || !hasWaiter {
        return;
      }
      t := t.(out := t.out + [Request(rounds[i].request.value)]);
      i := i + 1;
    }
  }

  /** `stream`: the pieces it yields and the reply it persists. */
  method Stream(rounds: seq<Round>, hasWaiter: bool) returns (out: seq<Piece>, reply: Option<Reply>)
    ensures out == Run(START, rounds, hasWaiter).out && reply == Persisted(Run(START, rounds, hasWaiter))
  {
    var t := StreamRounds(rounds, hasWaiter);
    out := t.out;
    reply := None;
    if t.full != [] {
      reply := Some(Reply(t.full, if t.fullReasoning != [] then Some(t.fullReasoning) else None));
    }
  }

  // ---------------------------------------------------------------- what comes in and what goes out

  /** The two kinds of text. */
  datatype Kind = Visible | Thought

  /** A trace of one kind of text and of the events that pass through it. */
  datatype Item = Char(c: char) | Mark(event: string) | Ask(id: string)

  function Chars(t: string): seq<Item> {
    seq(|t|, i requires 0 <= i < |t| => Char(t[i]))
  }

  function PieceTrace(kind: Kind, p: Piece): seq<Item> {
    match p
    case Content(t) => if kind.Visible? then Chars(t) else []
    case Reasoning(t) => if kind.Thought? then Chars(t) else []
    case ToolEvent(e) => [Mark(e)]
    case Request(id) => [Ask(id)]
  }

  function OutTrace(kind: Kind, out: seq<Piece>): seq<Item> {
    Flat((p: Piece) => PieceTrace(kind, p), out)
  }

  function EventTrace(kind: Kind, e: Event): seq<Item> {
    match e
    case Chunk(c, r, _) => Chars(if kind.Visible? then c else r)
    case Tool(event, _) => [Mark(event)]
    case Other => []
  }

  function EventsTrace(kind: Kind, events: seq<Event>): seq<Item> {
    Flat((e: Event) => EventTrace(kind, e), events)
  }

  /** Everything received, in the order it came. */
  function InTrace(kind: Kind, rounds: seq<Round>, hasWaiter: bool): seq<Item> {
    if rounds == [] then []
    else
      EventsTrace(kind, rounds[0].events) +
      if rounds[0].exceeded || rounds[0].request.None? || !hasWaiter then []
      else [Ask(rounds[0].request.value)] + InTrace(kind, rounds[1..], hasWaiter)
  }

  function Pending(kind: Kind, s: State): string {
    if kind.Visible? then s.content else s.reasoning
  }

  function Received(kind: Kind, s: State): string {
    if kind.Visible? then s.full else s.fullReasoning
  }

  lemma OutTraceNext(kind: Kind, out: seq<Piece>, p: Piece)
    ensures OutTrace(kind, out + [p]) == OutTrace(kind, out) + PieceTrace(kind, p)
  {
    var f := (p: Piece) => PieceTrace(kind, p);
    FlatConcat(f, out, [p]);
    assert Flat(f, [p]) == f(p) + [] == f(p);
  }

  lemma CharsConcat(a: string, b: string)
    ensures Chars(a + b) == Chars(a) + Chars(b)
  {
  }

  lemma YieldKeeps(kind: Kind, s: State)
    ensures OutTrace(kind, YieldReasoning(s).out) + Chars(Pending(kind, YieldReasoning(s)))
         == OutTrace(kind, s.out) + Chars(Pending(kind, s))
    ensures OutTrace(kind, YieldContent(s).out) + Chars(Pending(kind, YieldContent(s)))
         == OutTrace(kind, s.out) + Chars(Pending(kind, s))
  {
    OutTraceNext(kind, s.out, Reasoning(s.reasoning));
    OutTraceNext(kind, s.out, Content(s.content));
    var o := OutTrace(kind, s.out);
    assert o + [] == o && Chars([]) == [];
    assert o + Chars(s.content) + [] == o + Chars(s.content);
    assert o + Chars(s.reasoning) + [] == o + Chars(s.reasoning);
  }

  /** Both batches are shorter than a full one. */
  predicate Short(s: State) {
    |s.content| < BATCH_SIZE && |s.reasoning| < BATCH_SIZE
  }

  function Sum(kind: Kind, s: State): seq<Item> {
    OutTrace(kind, s.out) + Chars(Pending(kind, s))
  }

  lemma DrainKeeps(kind: Kind, s: State)
    ensures Sum(kind, Drain(s)) == Sum(kind, s) && Drain(s).content == [] == Drain(s).reasoning
    ensures OutTrace(kind, Drain(s).out) == Sum(kind, s)
  {
    YieldKeeps(kind, s);
    YieldKeeps(kind, YieldReasoning(s));
    assert OutTrace(kind, Drain(s).out) + Chars([]) == OutTrace(kind, Drain(s).out);
  }

  function EventText(kind: Kind, e: Event): string {
    if e.Chunk? then (if kind.Visible? then e.content else e.reasoning) else []
  }

  lemma ReceiveKeeps(kind: Kind, s: State, c: string, r: string)
    ensures Sum(kind, Receive(s, c, r)) == Sum(kind, s) + Chars(if kind.Visible? then c else r)
  {
    CharsConcat(Pending(kind, s), if kind.Visible? then c else r);
    ConcatAssociates(OutTrace(kind, s.out), Chars(Pending(kind, s)), Chars(if kind.Visible? then c else r));
  }

  lemma FlushKeeps(kind: Kind, s: State, due: bool, now: real)
    ensures Sum(kind, FlushReasoning(s, due, now)) == Sum(kind, s) == Sum(kind, FlushContent(s, due, now))
    ensures Received(kind, FlushReasoning(s, due, now)) == Received(kind, s)
    ensures Received(kind, FlushContent(s, due, now)) == Received(kind, s)
  {
    YieldKeeps(kind, s);
  }

  lemma NothingKeeps(kind: Kind, s: State)
    ensures Sum(kind, s) + Chars([]) == Sum(kind, s) && Received(kind, s) + [] == Received(kind, s)
  {
  }

  lemma ChunkShort(s: State, c: string, r: string, now: real)
    requires Short(s)
    ensures Short(Step(s, Chunk(c, r, now)))
  {
  }

  lemma ChunkKeeps(kind: Kind, s: State, c: string, r: string, now: real)
    ensures Sum(kind, Step(s, Chunk(c, r, now))) == Sum(kind, s) + EventTrace(kind, Chunk(c, r, now))
    ensures Received(kind, Step(s, Chunk(c, r, now))) == Received(kind, s) + EventText(kind, Chunk(c, r, now))
    ensures Short(s) ==> Short(Step(s, Chunk(c, r, now)))
  {
    if Short(s) {
      ChunkShort(s, c, r, now);
    }
    if c == [] && r == [] {
      NothingKeeps(kind, s);
    } else {
      var due := now - s.lastFlush >= FLUSH_INTERVAL;
      ReceiveKeeps(kind, s, c, r);
      FlushKeeps(kind, Receive(s, c, r), due, now);
      FlushKeeps(kind, FlushReasoning(Receive(s, c, r), due, now), due, now);
    }
  }

  /** One event adds its own trace and its own text, whatever is flushed. */
  lemma StepKeeps(kind: Kind, s: State, e: Event)
    ensures Sum(kind, Step(s, e)) == Sum(kind, s) + EventTrace(kind, e)
    ensures Received(kind, Step(s, e)) == Received(kind, s) + EventText(kind, e)
    ensures Short(s) ==> Short(Step(s, e))
  {
    match e
    case Other =>
      assert Sum(kind, s) + [] == Sum(kind, s) && Received(kind, s) + [] == Received(kind, s);
    case Tool(event, now) =>
      DrainKeeps(kind, s);
      OutTraceNext(kind, Drain(s).out, ToolEvent(event));
      assert Chars([]) == [] && Received(kind, s) + [] == Received(kind, s);
      assert Sum(kind, s) + [Mark(event)] + [] == Sum(kind, s) + [Mark(event)];
    case Chunk(c, r, now) =>
      ChunkKeeps(kind, s, c, r, now);
  }

  function EventsText(kind: Kind, events: seq<Event>): string {
    Flat((e: Event) => EventText(kind, e), events)
  }

  /** All the text received. */
  function InText(kind: Kind, rounds: seq<Round>, hasWaiter: bool): string {
    if rounds == [] then []
    else
      EventsText(kind, rounds[0].events) +
      if rounds[0].exceeded || rounds[0].request.None? || !hasWaiter then []
      else InText(kind, rounds[1..], hasWaiter)
  }

  lemma {:induction false} EventsKeep(kind: Kind, s: State, events: seq<Event>)
    ensures Sum(kind, Fold(Step, s, events)) == Sum(kind, s) + EventsTrace(kind, events)
    ensures Received(kind, Fold(Step, s, events)) == Received(kind, s) + EventsText(kind, events)
    ensures Short(s) ==> Short(Fold(Step, s, events))
    decreases |events|
  {
    if events == [] {
      assert Sum(kind, s) + [] == Sum(kind, s) && Received(kind, s) + [] == Received(kind, s);
    } else {
      var e, rest := events[0], events[1..];
      StepKeeps(kind, s, e);
      EventsKeep(kind, Step(s, e), rest);
      assert EventsTrace(kind, events) == EventTrace(kind, e) + EventsTrace(kind, rest);
      assert EventsText(kind, events) == EventText(kind, e) + EventsText(kind, rest);
      ConcatAssociates(Sum(kind, s), EventTrace(kind, e), EventsTrace(kind, rest));
      ConcatAssociates(Received(kind, s), EventText(kind, e), EventsText(kind, rest));
    }
  }

  predicate Settled(s: State) {
    s.content == [] && s.reasoning == []
  }

  lemma PassKeeps(kind: Kind, s: State, r: Round)
    requires Settled(s)
    ensures Sum(kind, Pass(s, r)) == OutTrace(kind, s.out) + EventsTrace(kind, r.events)
    ensures Received(kind, Pass(s, r)) == Received(kind, s) + EventsText(kind, r.events)
    ensures Short(Pass(s, r))
  {
    EventsKeep(kind, Begin(s, r.start), r.events);
    assert OutTrace(kind, s.out) + [] == OutTrace(kind, s.out);
  }

  /** The recursion limit is hit in one of the passes that are made. */
  predicate Exceeds(rounds: seq<Round>, hasWaiter: bool) {
    rounds != [] &&
    (rounds[0].exceeded || (rounds[0].request.Some? && hasWaiter && Exceeds(rounds[1..], hasWaiter)))
  }

  /** The state the next pass starts from, after a request was answered. */
  function Answered(s: State, r: Round): State
    requires r.request.Some?
  {
    var d := Drain(Pass(s, r));
    d.(out := d.out + [Request(r.request.value)])
  }

  lemma AnsweredKeeps(kind: Kind, s: State, r: Round)
    requires Settled(s) && r.request.Some?
    ensures Settled(Answered(s, r))
    ensures OutTrace(kind, Answered(s, r).out)
         == OutTrace(kind, s.out) + (EventsTrace(kind, r.events) + [Ask(r.request.value)])
    ensures Received(kind, Answered(s, r)) == Received(kind, s) + EventsText(kind, r.events)
  {
    var p := Pass(s, r);
    PassKeeps(kind, s, r);
    DrainKeeps(kind, p);
    OutTraceNext(kind, Drain(p).out, Request(r.request.value));
    ConcatAssociates(OutTrace(kind, s.out), EventsTrace(kind, r.events), [Ask(r.request.value)]);
  }

  lemma LastKeeps(kind: Kind, s: State, r: Round)
    requires Settled(s)
    ensures OutTrace(kind, Drain(Pass(s, r)).out) == OutTrace(kind, s.out) + EventsTrace(kind, r.events)
    ensures Received(kind, Drain(Pass(s, r))) == Received(kind, s) + EventsText(kind, r.events)
  {
    PassKeeps(kind, s, r);
    DrainKeeps(kind, Pass(s, r));
  }

  lemma InTraceNext(kind: Kind, rounds: seq<Round>, o: seq<Item>, x: string)
    requires rounds != [] && !rounds[0].exceeded && rounds[0].request.Some?
    ensures var t := EventsTrace(kind, rounds[0].events) + [Ask(rounds[0].request.value)];
      o + t + InTrace(kind, rounds[1..], true) == o + InTrace(kind, rounds, true)
    ensures x + EventsText(kind, rounds[0].events) + InText(kind, rounds[1..], true) == x + InText(kind, rounds, true)
  {
    var t, ask := EventsTrace(kind, rounds[0].events), [Ask(rounds[0].request.value)];
    ConcatAssociates(o, t + ask, InTrace(kind, rounds[1..], true));
    ConcatAssociates(t, ask, InTrace(kind, rounds[1..], true));
    ConcatAssociates(x, EventsText(kind, rounds[0].events), InText(kind, rounds[1..], true));
  }

  lemma {:induction false} RunExact(kind: Kind, s: State, rounds: seq<Round>, hasWaiter: bool)
    requires Settled(s) && !Exceeds(rounds, hasWaiter)
    ensures OutTrace(kind, Run(s, rounds, hasWaiter).out) == OutTrace(kind, s.out) + InTrace(kind, rounds, hasWaiter)
    ensures Received(kind, Run(s, rounds, hasWaiter)) == Received(kind, s) + InText(kind, rounds, hasWaiter)
    decreases |rounds|
  {
    if rounds == [] {
      assert OutTrace(kind, s.out) + [] == OutTrace(kind, s.out) && Received(kind, s) + [] == Received(kind, s);
    } else if rounds[0].request.None? || !hasWaiter {
      LastKeeps(kind, s, rounds[0]);
      var t, x := EventsTrace(kind, rounds[0].events), EventsText(kind, rounds[0].events);
      assert t + [] == t && x + [] == x;
    } else {
      AnsweredKeeps(kind, s, rounds[0]);
      RunExact(kind, Answered(s, rounds[0]), rounds[1..], hasWaiter);
      InTraceNext(kind, rounds, OutTrace(kind, s.out), Received(kind, s));
    }
  }

  /** The state when the recursion error comes, its batches still pending. */
  function AtExit(s: State, rounds: seq<Round>, hasWaiter: bool): State
    requires Exceeds(rounds, hasWaiter)
    decreases |rounds|
  {
    if rounds[0].exceeded then Pass(s, rounds[0]) else AtExit(Answered(s, rounds[0]), rounds[1..], hasWaiter)
  }

  function Kept(kind: Kind, text: string): string {
    if kind.Visible? && text == [] then FALLBACK else text
  }

  /** A recursion exit yields a stretch of what was received, with the pending batch, less than a full one, missing
      at its end, and then the fallback. */
  lemma {:induction false} RunCut(kind: Kind, s: State, rounds: seq<Round>, hasWaiter: bool)
    requires Settled(s) && Exceeds(rounds, hasWaiter)
    ensures var e := AtExit(s, rounds, hasWaiter);
      && Run(s, rounds, hasWaiter).out == e.out + [Content(FALLBACK)] && Short(e)
      && OutTrace(kind, e.out) + Chars(Pending(kind, e)) == OutTrace(kind, s.out) + InTrace(kind, rounds, hasWaiter)
    ensures Received(kind, Run(s, rounds, hasWaiter)) == Kept(kind, Received(kind, s) + InText(kind, rounds, hasWaiter))
    decreases |rounds|
  {
    if rounds[0].exceeded {
      PassKeeps(kind, s, rounds[0]);
      var t, x := EventsTrace(kind, rounds[0].events), EventsText(kind, rounds[0].events);
      assert t + [] == t && x + [] == x;
    } else {
      AnsweredKeeps(kind, s, rounds[0]);
      RunCut(kind, Answered(s, rounds[0]), rounds[1..], hasWaiter);
      InTraceNext(kind, rounds, OutTrace(kind, s.out), Received(kind, s));
    }
  }

  // ---------------------------------------------------------------- the text of a trace

  function ItemText(i: Item): string {
    if i.Char? then [i.c] else []
  }

  function Text(trace: seq<Item>): string {
    Flat(ItemText, trace)
  }

  lemma {:induction false} TextOfChars(t: string)
    ensures Text(Chars(t)) == t
  {
    if t != [] {
      assert Chars(t)[1..] == Chars(t[1..]);
      TextOfChars(t[1..]);
    }
  }

  /** The yielded text of one kind. */
  function OutText(kind: Kind, out: seq<Piece>): string {
    Text(OutTrace(kind, out))
  }

  lemma EventsTextIsTrace(kind: Kind, e: Event)
    ensures Text(EventTrace(kind, e)) == EventText(kind, e)
  {
    if e.Chunk? {
      TextOfChars(if kind.Visible? then e.content else e.reasoning);
    } else if e.Tool? {
      assert [Mark(e.event)][1..] == [];
      assert Text([Mark(e.event)]) == ItemText(Mark(e.event)) + Text([]);
    }
  }

  lemma {:induction false} TextOfEvents(kind: Kind, events: seq<Event>)
    ensures Text(EventsTrace(kind, events)) == EventsText(kind, events)
  {
    if events != [] {
      EventsTextIsTrace(kind, events[0]);
      TextOfEvents(kind, events[1..]);
      assert EventsTrace(kind, events) == EventTrace(kind, events[0]) + EventsTrace(kind, events[1..]);
      assert EventsText(kind, events) == EventText(kind, events[0]) + EventsText(kind, events[1..]);
      FlatConcat(ItemText, EventTrace(kind, events[0]), EventsTrace(kind, events[1..]));
    }
  }

  lemma {:induction false} TextOfIn(kind: Kind, rounds: seq<Round>, hasWaiter: bool)
    ensures Text(InTrace(kind, rounds, hasWaiter)) == InText(kind, rounds, hasWaiter)
  {
    if rounds != [] {
      var t := EventsTrace(kind, rounds[0].events);
      TextOfEvents(kind, rounds[0].events);
      if rounds[0].exceeded || rounds[0].request.None? || !hasWaiter {
        assert t + [] == t && Text(t) + [] == Text(t);
      } else {
        var ask, rest := [Ask(rounds[0].request.value)], InTrace(kind, rounds[1..], hasWaiter);
        TextOfIn(kind, rounds[1..], hasWaiter);
        FlatConcat(ItemText, t, ask + rest);
        FlatConcat(ItemText, ask, rest);
        assert Text(ask) == [] + [] == [] && [] + Text(rest) == Text(rest);
      }
    }
  }

  /** Without a recursion exit, for any chunks, clock and number of approvals: each kind of text is yielded whole and
      in order, with every tool event and request where it came in the received text, and the text received is what
      is kept for persisting. */
  lemma StreamExact(kind: Kind, rounds: seq<Round>, hasWaiter: bool)
    requires !Exceeds(rounds, hasWaiter)
    ensures OutTrace(kind, Run(START, rounds, hasWaiter).out) == InTrace(kind, rounds, hasWaiter)
    ensures OutText(kind, Run(START, rounds, hasWaiter).out)
         == InText(kind, rounds, hasWaiter) == Received(kind, Run(START, rounds, hasWaiter))
  {
    RunExact(kind, START, rounds, hasWaiter);
    TextOfIn(kind, rounds, hasWaiter);
    assert [] + InTrace(kind, rounds, hasWaiter) == InTrace(kind, rounds, hasWaiter);
    assert [] + InText(kind, rounds, hasWaiter) == InText(kind, rounds, hasWaiter);
  }

  /** A recursion exit drops the pending batches, less than a full one of each kind, and nothing else. */
  lemma StreamCut(kind: Kind, rounds: seq<Round>, hasWaiter: bool)
    requires Exceeds(rounds, hasWaiter)
    ensures var e := AtExit(START, rounds, hasWaiter);
      && Run(START, rounds, hasWaiter).out == e.out + [Content(FALLBACK)] && Short(e)
      && OutTrace(kind, e.out) + Chars(Pending(kind, e)) == InTrace(kind, rounds, hasWaiter)
    ensures var e := AtExit(START, rounds, hasWaiter);
      && OutText(kind, e.out) + Pending(kind, e) == InText(kind, rounds, hasWaiter)
      && Received(kind, Run(START, rounds, hasWaiter)) == Kept(kind, InText(kind, rounds, hasWaiter))
  {
    var e := AtExit(START, rounds, hasWaiter);
    RunCut(kind, START, rounds, hasWaiter);
    assert [] + InTrace(kind, rounds, hasWaiter) == InTrace(kind, rounds, hasWaiter);
    assert [] + InText(kind, rounds, hasWaiter) == InText(kind, rounds, hasWaiter);
    TextOfIn(kind, rounds, hasWaiter);
    FlatConcat(ItemText, OutTrace(kind, e.out), Chars(Pending(kind, e)));
    TextOfChars(Pending(kind, e));
  }

  /** The text of one kind that is persisted. */
  function PersistedText(kind: Kind, s: State): string {
    match Persisted(s)
    case None => []
    case Some(r) => if kind.Visible? then r.content else r.reasoning.Or([])
  }

  lemma PersistedIsKept(kind: Kind, s: State)
    ensures PersistedText(kind, s) == if s.full == [] then [] else Received(kind, s)
  {
  }

  lemma CutText(kind: Kind, rounds: seq<Round>, hasWaiter: bool)
    requires Exceeds(rounds, hasWaiter)
    ensures var e := AtExit(START, rounds, hasWaiter);
      OutText(kind, Run(START, rounds, hasWaiter).out) == OutText(kind, e.out) + if kind.Visible? then FALLBACK else []
  {
    var e := AtExit(START, rounds, hasWaiter);
    StreamCut(kind, rounds, hasWaiter);
    OutTraceNext(kind, e.out, Content(FALLBACK));
    FlatConcat(ItemText, OutTrace(kind, e.out), PieceTrace(kind, Content(FALLBACK)));
    TextOfChars(FALLBACK);
  }

  /** The visible text that was yielded is the reply that is persisted exactly when there was no recursion exit, or
      nothing visible had been received before it. */
  lemma ShownIsPersistedExact(rounds: seq<Round>, hasWaiter: bool)
    ensures OutText(Visible, Run(START, rounds, hasWaiter).out) == PersistedText(Visible, Run(START, rounds, hasWaiter))
       <==> (!Exceeds(rounds, hasWaiter) || InText(Visible, rounds, hasWaiter) == [])
  {
    PersistedIsKept(Visible, Run(START, rounds, hasWaiter));
    if !Exceeds(rounds, hasWaiter) {
      StreamExact(Visible, rounds, hasWaiter);
    } else {
      StreamCut(Visible, rounds, hasWaiter);
      CutText(Visible, rounds, hasWaiter);
      assert |FALLBACK| > BATCH_SIZE;
      assert [] + FALLBACK == FALLBACK;
    }
  }

  /** The thoughts that were yielded are those persisted exactly when, without a recursion exit, visible text was
      received or no thought was, and with one, no thought was pending at the exit. */
  lemma ThoughtIsPersistedExact(rounds: seq<Round>, hasWaiter: bool)
    ensures OutText(Thought, Run(START, rounds, hasWaiter).out) == PersistedText(Thought, Run(START, rounds, hasWaiter))
       <==> if Exceeds(rounds, hasWaiter) then AtExit(START, rounds, hasWaiter).reasoning == []
            else InText(Visible, rounds, hasWaiter) != [] || InText(Thought, rounds, hasWaiter) == []
  {
    var s := Run(START, rounds, hasWaiter);
    PersistedIsKept(Thought, s);
    if !Exceeds(rounds, hasWaiter) {
      StreamExact(Visible, rounds, hasWaiter);
      StreamExact(Thought, rounds, hasWaiter);
    } else {
      var e := AtExit(START, rounds, hasWaiter);
      StreamCut(Visible, rounds, hasWaiter);
      StreamCut(Thought, rounds, hasWaiter);
      CutText(Thought, rounds, hasWaiter);
      assert s.full != [] by { assert |FALLBACK| > 0; }
      assert OutText(Thought, e.out) + [] == OutText(Thought, e.out);
    }
  }

  /** Something is persisted exactly when something visible was received or the recursion limit was hit; a turn of
      thoughts only leaves nothing. */
  lemma PersistsExact(rounds: seq<Round>, hasWaiter: bool)
    ensures Persisted(Run(START, rounds, hasWaiter)).Some?
       <==> InText(Visible, rounds, hasWaiter) != [] || Exceeds(rounds, hasWaiter)
  {
    if !Exceeds(rounds, hasWaiter) {
      StreamExact(Visible, rounds, hasWaiter);
    } else {
      StreamCut(Visible, rounds, hasWaiter);
      assert |FALLBACK| > 0;
    }
  }

  /** The persisted reply has thoughts exactly when some were received, and then these. */
  lemma ReplyExact(rounds: seq<Round>, hasWaiter: bool)
    requires Persisted(Run(START, rounds, hasWaiter)).Some?
    ensures var t := InText(Thought, rounds, hasWaiter);
      Persisted(Run(START, rounds, hasWaiter)).value.reasoning == if t == [] then None else Some(t)
  {
    if !Exceeds(rounds, hasWaiter) {
      StreamExact(Thought, rounds, hasWaiter);
    } else {
      StreamCut(Thought, rounds, hasWaiter);
    }
  }

  // ---------------------------------------------------------------- single events and rounds

  function Thoughts(text: string): seq<Piece> {
    if text == [] then [] else [Reasoning(text)]
  }

  function Words(text: string): seq<Piece> {
    if text == [] then [] else [Content(text)]
  }

  /** Before a tool event everything pending is yielded, thoughts before text; then the event. */
  lemma ToolEventDrains(s: State, event: string, now: real)
    ensures var t := Step(s, Tool(event, now));
      && t.out == s.out + Thoughts(s.reasoning) + Words(s.content) + [ToolEvent(event)]
      && t.content == [] && t.reasoning == [] && t.lastFlush == now
      && t.full == s.full && t.fullReasoning == s.fullReasoning
  {
    assert s.out + [] == s.out;
    assert s.out + Thoughts(s.reasoning) + [] == s.out + Thoughts(s.reasoning);
  }

  /** A chunk is added to what is pending, and each kind that has 30 characters, or is there 0.05 seconds or more after
      the last batch, is yielded, thoughts before text; so an old batch leaves nothing behind. */
  lemma ChunkFlushes(s: State, c: string, r: string, now: real)
    requires c != [] || r != []
    ensures var t, thoughts, text := Step(s, Chunk(c, r, now)), s.reasoning + r, s.content + c;
      var old_ := now - s.lastFlush >= 0.05;
      && t.full == s.full + c && t.fullReasoning == s.fullReasoning + r
      && t.out == s.out + (if |thoughts| >= 30 || old_ then Thoughts(thoughts) else [])
                        + (if |text| >= 30 || old_ then Words(text) else [])
      && t.reasoning == (if |thoughts| >= 30 || old_ then [] else thoughts)
      && t.content == (if |text| >= 30 || old_ then [] else text)
      && t.lastFlush == (if t.out == s.out then s.lastFlush else now)
  {
    var t, thoughts := Step(s, Chunk(c, r, now)), s.reasoning + r;
    var old_ := now - s.lastFlush >= 0.05;
    var first := if |thoughts| >= 30 || old_ then Thoughts(thoughts) else [];
    assert s.out + [] == s.out && s.out + first + [] == s.out + first;
    assert t.out != s.out ==> |t.out| > |s.out|;
  }

  /** A round that ends yields what is pending, thoughts before text, then asks for approval if it was interrupted and
      somebody can be asked, and only then goes on. */
  lemma RoundEnds(s: State, r: Round, rest: seq<Round>, hasWaiter: bool)
    requires !r.exceeded
    ensures var p := Fold(Step, State(s.out, s.full, s.fullReasoning, [], [], r.start), r.events);
      var out := p.out + Thoughts(p.reasoning) + Words(p.content);
      if r.request.None? || !hasWaiter then
        Run(s, [r] + rest, hasWaiter) == State(out, p.full, p.fullReasoning, [], [], p.lastFlush)
      else
        Run(s, [r] + rest, hasWaiter)
        == Run(State(out + [Request(r.request.value)], p.full, p.fullReasoning, [], [], p.lastFlush), rest, hasWaiter)
  {
    var p := Fold(Step, State(s.out, s.full, s.fullReasoning, [], [], r.start), r.events);
    assert ([r] + rest)[1..] == rest;
    assert p.out + [] == p.out && p.out + Thoughts(p.reasoning) + [] == p.out + Thoughts(p.reasoning);
  }

  /** The recursion error ends the turn: what is pending is dropped and the fallback is yielded, which is the reply if
      there is none yet. */
  lemma RoundGivesUp(s: State, r: Round, rest: seq<Round>, hasWaiter: bool)
    requires r.exceeded
    ensures var p := Fold(Step, State(s.out, s.full, s.fullReasoning, [], [], r.start), r.events);
      var fallback := "Conversation reached the step limit; please retry or reset.";
      Run(s, [r] + rest, hasWaiter)
      == State(p.out + [Content(fallback)], if p.full == [] then fallback else p.full, p.fullReasoning, [], [],
               p.lastFlush)
  {
  }
}
