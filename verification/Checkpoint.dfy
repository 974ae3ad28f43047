/** Compressed histories as reducer commands. */
module Checkpoint {
  import opened Ordering

  type Id = string

  /** `obj` tells objects apart as Python's `is` does; 0 is an object nobody else refers to. */
  datatype Message = Message(id: Option<Id>, content: string, obj: nat)

  datatype Command = Remove(id: Id) | Put(m: Message)

  // ---------------------------------------------------------------- the reducer

  /** The list being merged, the ids marked as removed, and the fresh ids still to be handed out. */
  datatype Merge = Merge(list: seq<Message>, gone: set<Id>, supply: seq<Id>)

  function Ids(list: seq<Message>): (r: seq<Option<Id>>)
    ensures |r| == |list| && forall i :: 0 <= i < |list| ==> r[i] == list[i].id
  {
    seq(|list|, i requires 0 <= i < |list| => list[i].id)
  }

  /** Where a dict by id says a message stands: the last place of the id, or past the end if it has none. */
  function Position(list: seq<Message>, id: Option<Id>): (i: nat)
    ensures i <= |list| && (i < |list| ==> list[i].id == id)
    ensures forall j :: 0 <= j < |list| && (j > i || i == |list|) ==> list[j].id != id
  {
    if list == [] then 0
    else
      var i := Position(list[1..], id);
      if i < |list| - 1 then i + 1 else if list[0].id == id then 0 else |list|
  }

  predicate Has(list: seq<Message>, id: Option<Id>) {
    Position(list, id) < |list|
  }

  /** One command. An entry with a known id replaces that entry in place and is no longer removed, one with
      a new id is appended, one without id gets a fresh id; a remove marks an id that must be there. */
  function Step(s: Merge, c: Command): Option<Merge> {
    match c
    case Remove(id) => if Has(s.list, Some(id)) then Some(s.(gone := s.gone + {id})) else None
    case Put(m) =>
      match m.id
      case Some(id) =>
        var i := Position(s.list, m.id);
        if i < |s.list| then Some(s.(list := s.list[i := m], gone := s.gone - {id}))
        else Some(s.(list := s.list + [m]))
      case None =>
        if s.supply == [] then None
        else Some(Merge(s.list + [m.(id := Some(s.supply[0]))], s.gone, s.supply[1..]))
  }

  function Steps(s: Merge, cs: seq<Command>): Option<Merge>
    decreases |cs|
  {
    if cs == [] then Some(s)
    else match Step(s, cs[0])
         case None => None
         case Some(t) => Steps(t, cs[1..])
  }

  function Keep(list: seq<Message>, gone: set<Id>): seq<Message> {
    if list == [] then []
    else if list[0].id.Some? && list[0].id.value in gone then Keep(list[1..], gone)
    else [list[0]] + Keep(list[1..], gone)
  }

  /** `add_messages(left, commands)`; `supply` are the fresh ids it may draw. */
  function Reduce(left: seq<Message>, cs: seq<Command>, supply: seq<Id>): Option<seq<Message>> {
    match Steps(Merge(left, {}, supply), cs)
    case None => None
    case Some(s) => Some(Keep(s.list, s.gone))
  }

  // ---------------------------------------------------------------- _messages_state_update

  /** `_is_ordered_subset`: one pass over `full`, looking for each candidate where the last one was found. */
  predicate IsOrderedSubset(subset: seq<Option<Id>>, full: seq<Option<Id>>) {
    if subset == [] then true
    else if full == [] then false
    else if full[0] == subset[0] then IsOrderedSubset(subset[1..], full[1..])
    else IsOrderedSubset(subset, full[1..])
  }

  /** Positions in `full`, increasing, where the elements of `subset` stand. */
  ghost predicate Embeds(at: seq<int>, subset: seq<Option<Id>>, full: seq<Option<Id>>) {
    && |at| == |subset|
    && (forall i :: 0 <= i < |at| ==> 0 <= at[i] < |full| && full[at[i]] == subset[i])
    && (forall i, j :: 0 <= i < j < |at| ==> at[i] < at[j])
  }

  /** `subset` is a subsequence of `full`. */
  ghost predicate IsSubsequence(subset: seq<Option<Id>>, full: seq<Option<Id>>) {
    exists at :: Embeds(at, subset, full)
  }

  lemma EmbedCons(at: seq<int>, subset: seq<Option<Id>>, full: seq<Option<Id>>)
    requires subset != [] && full != [] && subset[0] == full[0] && Embeds(at, subset[1..], full)
    requires forall i :: 0 <= i < |at| ==> at[i] > 0
    ensures Embeds([0] + at, subset, full)
  {
  }

  lemma EmbedTail(at: seq<int>, subset: seq<Option<Id>>, full: seq<Option<Id>>)
    requires subset != [] && Embeds(at, subset, full)
    ensures Embeds(at[1..], subset[1..], full) && forall i :: 0 <= i < |at[1..]| ==> at[1..][i] > 0
  {
    assert forall i :: 0 < i < |at| ==> at[0] < at[i];
  }

  ghost function Shift(at: seq<int>, d: int): (r: seq<int>)
    ensures |r| == |at| && forall i :: 0 <= i < |at| ==> r[i] == at[i] + d
  {
    seq(|at|, i requires 0 <= i < |at| => at[i] + d)
  }

  lemma EmbedShifted(at: seq<int>, subset: seq<Option<Id>>, full: seq<Option<Id>>)
    requires full != [] && Embeds(at, subset, full[1..])
    ensures Embeds(Shift(at, 1), subset, full)
  {
  }

  lemma EmbedUnshifted(at: seq<int>, subset: seq<Option<Id>>, full: seq<Option<Id>>)
    requires full != [] && Embeds(at, subset, full) && (at != [] ==> at[0] > 0)
    ensures Embeds(Shift(at, -1), subset, full[1..])
  {
    assert forall i :: 0 <= i < |at| ==> at[i] > 0;
  }

  lemma TakeHead(subset: seq<Option<Id>>, full: seq<Option<Id>>)
    requires subset != [] && full != [] && subset[0] == full[0]
    ensures IsSubsequence(subset, full) <==> IsSubsequence(subset[1..], full[1..])
  {
    if at :| Embeds(at, subset[1..], full[1..]) {
      EmbedShifted(at, subset[1..], full);
      EmbedCons(Shift(at, 1), subset, full);
    }
    if at :| Embeds(at, subset, full) {
      EmbedTail(at, subset, full);
      EmbedUnshifted(at[1..], subset[1..], full);
    }
  }

  lemma SkipHead(subset: seq<Option<Id>>, full: seq<Option<Id>>)
    requires subset != [] && full != [] && subset[0] != full[0]
    ensures IsSubsequence(subset, full) <==> IsSubsequence(subset, full[1..])
  {
    if at :| Embeds(at, subset, full[1..]) {
      EmbedShifted(at, subset, full);
    }
    if at :| Embeds(at, subset, full) {
      assert at[0] != 0;
      EmbedUnshifted(at, subset, full);
    }
  }

  /** The greedy scan is right: it succeeds just when `subset` is a subsequence of `full`. */
  lemma {:induction false} OrderedSubsetExact(subset: seq<Option<Id>>, full: seq<Option<Id>>)
    ensures IsOrderedSubset(subset, full) <==> IsSubsequence(subset, full)
    decreases |full|
  {
    if subset == [] {
      assert Embeds([], subset, full);
    } else if full == [] {
      forall at ensures !Embeds(at, subset, full) {
        assert |at| == |subset| ==> !(0 <= at[0] < |full|);
      }
    } else if full[0] == subset[0] {
      OrderedSubsetExact(subset[1..], full[1..]);
      TakeHead(subset, full);
    } else {
      OrderedSubsetExact(subset, full[1..]);
      SkipHead(subset, full);
    }
  }

  predicate IsPureDeletion(current: seq<Message>, compressed: seq<Message>) {
    && (forall i :: 0 <= i < |compressed| ==> compressed[i].id.Some? && Has(current, compressed[i].id))
    && IsOrderedSubset(Ids(compressed), Ids(current))
  }

  /** Remove every current message whose id is not among `kept`. */
  function Removals(current: seq<Message>, kept: seq<Message>): seq<Command> {
    if current == [] then []
    else if current[0].id.Some? && !Has(kept, current[0].id)
    then [Remove(current[0].id.value)] + Removals(current[1..], kept)
    else Removals(current[1..], kept)
  }

  /** Emit again the messages of `compressed` that are not the very objects of `current`. */
  function Changed(current: seq<Message>, compressed: seq<Message>): seq<Command> {
    if compressed == [] then []
    else
      var m := compressed[0];
      var i := Position(current, m.id);
      if m.id.Some? && !(i < |current| && current[i].obj == m.obj) then [Put(m)] + Changed(current, compressed[1..])
      else Changed(current, compressed[1..])
  }

  /** Append everything again, as an id-less copy where the id is one of the current ones. */
  function Appends(current: seq<Message>, compressed: seq<Message>): seq<Command> {
    if compressed == [] then []
    else
      var m := compressed[0];
      [Put(if m.id.Some? && Has(current, m.id) then Message(None, m.content, 0) else m)]
      + Appends(current, compressed[1..])
  }

  function UpdateFor(current: seq<Message>, compressed: seq<Message>): seq<Command> {
    if IsPureDeletion(current, compressed) then Removals(current, compressed) + Changed(current, compressed)
    else Removals(current, []) + Appends(current, compressed)
  }

  // ---------------------------------------------------------------- what is asked of the inputs

  /** Every message has an id and no two the same: what the reducer leaves behind. */
  ghost predicate Stamped(list: seq<Message>) {
    && (forall i :: 0 <= i < |list| ==> list[i].id.Some?)
    && (forall i, j :: 0 <= i < j < |list| ==> list[i].id != list[j].id)
  }

  /** The same object is the same message. */
  ghost predicate OneHeap(current: seq<Message>, compressed: seq<Message>) {
    forall i, j :: 0 <= i < |current| && 0 <= j < |compressed| && current[i].obj == compressed[j].obj ==>
      current[i] == compressed[j]
  }

  /** Ids that are not current ones occur once. */
  ghost predicate ForeignDistinct(current: seq<Message>, compressed: seq<Message>) {
    forall i, j :: 0 <= i < j < |compressed| && compressed[i].id == compressed[j].id && compressed[i].id.Some? ==>
      Has(current, compressed[i].id)
  }

  /** Enough fresh ids, all different and new to both lists. */
  ghost predicate FreshFor(supply: seq<Id>, current: seq<Message>, compressed: seq<Message>) {
    && |supply| >= |compressed|
    && (forall i, j :: 0 <= i < j < |supply| ==> supply[i] != supply[j])
    && (forall i :: 0 <= i < |supply| ==> !Has(current, Some(supply[i])) && !Has(compressed, Some(supply[i])))
  }

  function Contents(list: seq<Message>): (r: seq<string>)
    ensures |r| == |list| && forall i :: 0 <= i < |list| ==> r[i] == list[i].content
  {
    seq(|list|, i requires 0 <= i < |list| => list[i].content)
  }

  lemma PositionOf(list: seq<Message>, i: nat)
    requires i < |list| && Stamped(list)
    ensures Position(list, list[i].id) == i
  {
    var p := Position(list, list[i].id);
    assert p < |list| && list[p].id == list[i].id;
  }

  lemma HasMember(list: seq<Message>, id: Option<Id>)
    ensures Has(list, id) <==> exists i :: 0 <= i < |list| && list[i].id == id
  {
  }

  // ---------------------------------------------------------------- replaying a pure deletion

  ghost function Dropped(current: seq<Message>, kept: seq<Message>): set<Id> {
    if current == [] then {}
    else if current[0].id.Some? && !Has(kept, current[0].id) then {current[0].id.value} + Dropped(current[1..], kept)
    else Dropped(current[1..], kept)
  }

  /** Removals mark just the ids that are not kept. */
  lemma {:induction false} RunRemovals(s: Merge, current: seq<Message>, kept: seq<Message>, rest: seq<Command>)
    requires forall i :: 0 <= i < |current| ==> current[i].id.Some? && Has(s.list, current[i].id)
    ensures Steps(s, Removals(current, kept) + rest) == Steps(s.(gone := s.gone + Dropped(current, kept)), rest)
    decreases |current|
  {
    if current == [] {
      assert s.gone + Dropped(current, kept) == s.gone;
      assert Removals(current, kept) + rest == rest;
    } else {
      var tail := Removals(current[1..], kept);
      if Has(kept, current[0].id) {
        RunRemovals(s, current[1..], kept, rest);
      } else {
        var id := current[0].id.value;
        var t := s.(gone := s.gone + {id});
        assert Removals(current, kept) + rest == [Remove(id)] + (tail + rest);
        RunRemovals(t, current[1..], kept, rest);
        assert s.gone + {id} + Dropped(current[1..], kept) == s.gone + Dropped(current, kept);
      }
    }
  }

  lemma {:induction false} DroppedExact(current: seq<Message>, kept: seq<Message>, id: Id)
    ensures id in Dropped(current, kept) <==> Has(current, Some(id)) && !Has(kept, Some(id))
  {
    if current != [] {
      DroppedExact(current[1..], kept, id);
      assert current == [current[0]] + current[1..];
    }
  }

  lemma SubsetStamped(compressed: seq<Message>, current: seq<Message>)
    requires Stamped(current) && IsOrderedSubset(Ids(compressed), Ids(current))
    ensures Stamped(compressed)
    ensures forall i :: 0 <= i < |compressed| ==> Has(current, compressed[i].id)
  {
    OrderedSubsetExact(Ids(compressed), Ids(current));
    var at :| Embeds(at, Ids(compressed), Ids(current));
    forall i | 0 <= i < |compressed| ensures compressed[i].id.Some? && Has(current, compressed[i].id) {
      assert current[at[i]].id == compressed[i].id;
    }
    forall i, j | 0 <= i < j < |compressed| ensures compressed[i].id != compressed[j].id {
      assert current[at[i]].id != current[at[j]].id;
    }
  }

  /** The entry standing at `i` once the changed messages are put in. */
  ghost function Patched(current: seq<Message>, compressed: seq<Message>, m: Message): Message {
    var k := Position(compressed, m.id);
    var i := Position(current, m.id);
    if k < |compressed| && !(i < |current| && current[i].obj == compressed[k].obj) then compressed[k] else m
  }

  lemma StampedByIds(a: seq<Message>, b: seq<Message>)
    requires Stamped(a) && Ids(a) == Ids(b)
    ensures Stamped(b)
  {
    assert forall i :: 0 <= i < |b| ==> b[i].id == Ids(b)[i] == a[i].id;
  }

  lemma {:induction false} SameIdsHas(a: seq<Message>, b: seq<Message>)
    requires Ids(a) == Ids(b)
    ensures forall id :: Position(a, id) == Position(b, id)
  {
    forall id ensures Position(a, id) == Position(b, id) {
      var i, j := Position(a, id), Position(b, id);
      assert i < |a| ==> Ids(a)[i] == id && b[i].id == id;
      assert j < |b| ==> Ids(b)[j] == id && a[j].id == id;
    }
  }

  lemma {:induction false} PatchOne(list: seq<Message>, current: seq<Message>, compressed: seq<Message>, i: nat)
    requires compressed != [] && Stamped(compressed) && Stamped(list) && i < |list| && Ids(list) == Ids(current)
    requires Has(list, compressed[0].id)
    ensures var m := compressed[0]; var p := Position(list, m.id);
            p < |current| && Patched(current, compressed, list[i]) ==
            Patched(current, compressed[1..], if i == p && current[p].obj != m.obj then m else list[i])
  {
    var m := compressed[0];
    SameIdsHas(current, list);
    PositionOf(list, i);
    if list[i].id == m.id {
      HasMember(compressed[1..], m.id);
      assert forall k :: 0 <= k < |compressed[1..]| ==> compressed[1..][k] == compressed[k + 1];
    }
  }

  /** Putting the changed messages replaces each in place and revives nothing. */
  lemma {:induction false} RunChanged(s: Merge, current: seq<Message>, compressed: seq<Message>) returns (t: Merge)
    requires Stamped(compressed) && Stamped(s.list) && Ids(s.list) == Ids(current)
    requires forall i :: 0 <= i < |compressed| ==> Has(s.list, compressed[i].id) && compressed[i].id.value !in s.gone
    ensures Steps(s, Changed(current, compressed)) == Some(t)
    ensures t.gone == s.gone && Ids(t.list) == Ids(s.list)
    ensures forall i :: 0 <= i < |s.list| ==> t.list[i] == Patched(current, compressed, s.list[i])
    decreases |compressed|
  {
    if compressed == [] {
      t := s;
    } else {
      var m, rest := compressed[0], compressed[1..];
      var p := Position(s.list, m.id);
      SameIdsHas(current, s.list);
      var s' := if current[p].obj == m.obj then s else s.(list := s.list[p := m]);
      assert Ids(s'.list) == Ids(s.list);
      SameIdsHas(s.list, s'.list);
      StampedByIds(s.list, s'.list);
      t := RunChanged(s', current, rest);
      if current[p].obj == m.obj {
        assert Changed(current, compressed) == Changed(current, rest);
      } else {
        assert s.gone - {m.id.value} == s.gone;
        assert Changed(current, compressed) == [Put(m)] + Changed(current, rest);
      }
      forall i | 0 <= i < |s.list| ensures t.list[i] == Patched(current, compressed, s.list[i]) {
        PatchOne(s.list, current, compressed, i);
      }
    }
  }

  /** `m` is dropped or is the message of `compressed` with its id. */
  ghost predicate Matches(m: Message, gone: set<Id>, compressed: seq<Message>) {
    && m.id.Some?
    && (m.id.value in gone <==> !Has(compressed, m.id))
    && (Has(compressed, m.id) ==> m == compressed[Position(compressed, m.id)])
  }

  lemma NotKept(list: seq<Message>, compressed: seq<Message>)
    requires list != [] && Stamped(list) && IsOrderedSubset(Ids(compressed), Ids(list[1..]))
    ensures !Has(compressed, list[0].id)
  {
    SubsetStamped(compressed, list[1..]);
    forall k | 0 <= k < |compressed| ensures compressed[k].id != list[0].id {
      var j := Position(list[1..], compressed[k].id);
      assert list[j + 1].id == compressed[k].id;
    }
  }

  /** Dropping what is not kept from a list that has the kept messages in order leaves just those. */
  lemma {:induction false} KeepRebuilds(list: seq<Message>, gone: set<Id>, compressed: seq<Message>)
    requires Stamped(list) && Stamped(compressed) && IsOrderedSubset(Ids(compressed), Ids(list))
    requires forall i :: 0 <= i < |list| ==> Matches(list[i], gone, compressed)
    ensures Keep(list, gone) == compressed
  {
    if list == [] {
      assert |Ids(compressed)| == |compressed|;
    } else {
      assert Ids(list)[1..] == Ids(list[1..]);
      if compressed != [] && list[0].id == compressed[0].id {
        assert Ids(compressed)[1..] == Ids(compressed[1..]);
        forall i | 0 <= i < |list[1..]| ensures Matches(list[1..][i], gone, compressed[1..]) {
          assert Matches(list[i + 1], gone, compressed);
        }
        assert Matches(list[0], gone, compressed);
        KeepRebuilds(list[1..], gone, compressed[1..]);
      } else {
        NotKept(list, compressed);
        assert Matches(list[0], gone, compressed);
        KeepRebuilds(list[1..], gone, compressed);
      }
    }
  }

  /** A pure deletion is replayed to just the compressed messages, ids and all. */
  lemma ReplayDeletion(current: seq<Message>, compressed: seq<Message>, supply: seq<Id>)
    requires Stamped(current) && OneHeap(current, compressed) && IsPureDeletion(current, compressed)
    ensures Reduce(current, UpdateFor(current, compressed), supply) == Some(compressed)
  {
    SubsetStamped(compressed, current);
    var s := Merge(current, {}, supply);
    var gone := Dropped(current, compressed);
    RunRemovals(s, current, compressed, Changed(current, compressed));
    assert s.gone + gone == gone;
    forall i | 0 <= i < |compressed| ensures compressed[i].id.value !in gone {
      DroppedExact(current, compressed, compressed[i].id.value);
    }
    var t := RunChanged(s.(gone := gone), current, compressed);
    assert Stamped(t.list) by {
      assert forall i :: 0 <= i < |t.list| ==> t.list[i].id == Ids(t.list)[i] == current[i].id;
    }
    forall i | 0 <= i < |t.list| ensures Matches(t.list[i], gone, compressed) {
      assert t.list[i].id == Ids(t.list)[i] == current[i].id;
      DroppedExact(current, compressed, current[i].id.value);
      PositionOf(current, i);
    }
    KeepRebuilds(t.list, gone, compressed);
  }

  // ---------------------------------------------------------------- replaying a replacement

  /** What appending `ms` yields when nothing is replaced: fresh ids where there is none. */
  ghost function Stamps(ms: seq<Message>, supply: seq<Id>): (r: seq<Message>)
    requires |supply| >= |ms|
    ensures |r| == |ms|
  {
    if ms == [] then []
    else if ms[0].id.Some? then [ms[0]] + Stamps(ms[1..], supply)
    else [ms[0].(id := Some(supply[0]))] + Stamps(ms[1..], supply[1..])
  }

  ghost function Puts(ms: seq<Message>): (r: seq<Command>)
    ensures |r| == |ms| && forall i :: 0 <= i < |ms| ==> r[i] == Put(ms[i])
  {
    seq(|ms|, i requires 0 <= i < |ms| => Put(ms[i]))
  }

  /** No id of `ms` is in `list` or occurs twice. */
  ghost predicate AllNew(list: seq<Message>, ms: seq<Message>) {
    && (forall i :: 0 <= i < |ms| && ms[i].id.Some? ==> !Has(list, ms[i].id))
    && (forall i, j :: 0 <= i < j < |ms| && ms[i].id.Some? ==> ms[i].id != ms[j].id)
  }

  ghost predicate Unused(supply: seq<Id>, list: seq<Message>, ms: seq<Message>) {
    && |supply| >= |ms|
    && (forall i, j :: 0 <= i < j < |supply| ==> supply[i] != supply[j])
    && (forall i :: 0 <= i < |supply| ==> !Has(list, Some(supply[i])) && !Has(ms, Some(supply[i])))
  }

  lemma {:induction false} HasAppend(list: seq<Message>, m: Message)
    ensures forall id :: Has(list + [m], id) <==> Has(list, id) || m.id == id
  {
    forall id ensures Has(list + [m], id) <==> Has(list, id) || m.id == id {
      HasMember(list, id);
      HasMember(list + [m], id);
      assert (list + [m])[|list|] == m;
      assert forall i :: 0 <= i < |list| ==> (list + [m])[i] == list[i];
    }
  }

  lemma {:induction false} HasTail(ms: seq<Message>, id: Option<Id>)
    requires ms != []
    ensures Has(ms, id) <==> ms[0].id == id || Has(ms[1..], id)
  {
  }

  lemma PutFirst(s: Merge, ms: seq<Message>)
    requires ms != [] && Step(s, Put(ms[0])).Some?
    ensures Steps(s, Puts(ms)) == Steps(Step(s, Put(ms[0])).value, Puts(ms[1..]))
  {
    assert Puts(ms)[1..] == Puts(ms[1..]);
  }

  lemma UnusedAppend(supply: seq<Id>, list: seq<Message>, ms: seq<Message>, n: Message)
    requires ms != [] && Unused(supply, list, ms)
    requires n.id == if ms[0].id.Some? then ms[0].id else Some(supply[0])
    ensures Unused(if ms[0].id.Some? then supply else supply[1..], list + [n], ms[1..])
    ensures ms[0].id == None ==> !Has(list, n.id) && !Has(ms, n.id)
  {
    HasAppend(list, n);
    forall i | 0 <= i < |supply| ensures !Has(ms[1..], Some(supply[i])) && ms[0].id != Some(supply[i]) {
      HasTail(ms, Some(supply[i]));
    }
  }

  lemma AllNewSplit(list: seq<Message>, ms: seq<Message>, n: Message)
    requires ms != [] && n.id.Some? && !Has(list, n.id)
    requires ms[0].id == n.id || (ms[0].id == None && !Has(ms, n.id))
    ensures AllNew(list, ms) <==> AllNew(list + [n], ms[1..])
  {
    HasAppend(list, n);
    HasMember(ms, n.id);
    HasMember(ms[1..], n.id);
    var rest := ms[1..];
    if AllNew(list + [n], rest) {
      forall i, j | 0 <= i < j < |ms| && ms[i].id.Some? ensures ms[i].id != ms[j].id {
        assert ms[j] == rest[j - 1];
        if i > 0 {
          assert ms[i] == rest[i - 1];
        }
      }
      forall i | 0 <= i < |ms| && ms[i].id.Some? ensures !Has(list, ms[i].id) {
        if i > 0 {
          assert ms[i] == rest[i - 1];
        }
      }
    }
    if AllNew(list, ms) {
      forall i | 0 <= i < |rest| && rest[i].id.Some? ensures !Has(list + [n], rest[i].id) {
        assert rest[i] == ms[i + 1];
      }
    }
  }

  /** One append: `n` is what stands at the back afterwards. */
  lemma PutNew(s: Merge, ms: seq<Message>) returns (n: Message, s': Merge)
    requires ms != [] && Unused(s.supply, s.list, ms) && !(ms[0].id.Some? && Has(s.list, ms[0].id))
    ensures n == if ms[0].id.Some? then ms[0] else ms[0].(id := Some(s.supply[0]))
    ensures s' == Merge(s.list + [n], s.gone, if ms[0].id.Some? then s.supply else s.supply[1..])
    ensures Steps(s, Puts(ms)) == Steps(s', Puts(ms[1..]))
    ensures Unused(s'.supply, s'.list, ms[1..]) && (AllNew(s.list, ms) <==> AllNew(s'.list, ms[1..]))
  {
    n := if ms[0].id.Some? then ms[0] else ms[0].(id := Some(s.supply[0]));
    s' := Merge(s.list + [n], s.gone, if ms[0].id.Some? then s.supply else s.supply[1..]);
    PutFirst(s, ms);
    UnusedAppend(s.supply, s.list, ms, n);
    AllNewSplit(s.list, ms, n);
  }

  /** Appending messages whose known ids are new and different puts all of them at the back. */
  lemma {:induction false} RunNewAppends(s: Merge, ms: seq<Message>) returns (t: Merge)
    requires Unused(s.supply, s.list, ms) && AllNew(s.list, ms)
    ensures Steps(s, Puts(ms)) == Some(t) && t.gone == s.gone && t.list == s.list + Stamps(ms, s.supply)
    decreases |ms|
  {
    if ms == [] {
      t := s;
    } else {
      var n, s' := PutNew(s, ms);
      t := RunNewAppends(s', ms[1..]);
      assert s.list + ([n] + Stamps(ms[1..], s'.supply)) == s.list + [n] + Stamps(ms[1..], s'.supply);
    }
  }

  lemma UnusedReplace(supply: seq<Id>, list: seq<Message>, list': seq<Message>, ms: seq<Message>)
    requires ms != [] && Unused(supply, list, ms) && Ids(list) == Ids(list')
    ensures Unused(supply, list', ms[1..])
  {
    SameIdsHas(list, list');
    forall i | 0 <= i < |supply| ensures !Has(ms[1..], Some(supply[i])) {
      HasTail(ms, Some(supply[i]));
    }
  }

  /** Appending never fails, and where an id is not new the list comes out shorter. */
  lemma {:induction false} RunAppends(s: Merge, ms: seq<Message>) returns (t: Merge)
    requires Unused(s.supply, s.list, ms)
    requires forall i :: 0 <= i < |ms| && ms[i].id.Some? ==> ms[i].id.value !in s.gone
    ensures Steps(s, Puts(ms)) == Some(t) && t.gone == s.gone
    ensures |s.list| <= |t.list| <= |s.list| + |ms|
    ensures forall i :: 0 <= i < |s.list| ==> t.list[i].id == s.list[i].id
    ensures !AllNew(s.list, ms) ==> |t.list| < |s.list| + |ms|
    decreases |ms|
  {
    if ms == [] {
      t := s;
    } else {
      var m := ms[0];
      if m.id.Some? && Has(s.list, m.id) {
        PutFirst(s, ms);
        var s' := s.(list := s.list[Position(s.list, m.id) := m]);
        assert s.gone - {m.id.value} == s.gone;
        assert Ids(s'.list) == Ids(s.list);
        UnusedReplace(s.supply, s.list, s'.list, ms);
        t := RunAppends(s', ms[1..]);
      } else {
        var n, s' := PutNew(s, ms);
        t := RunAppends(s', ms[1..]);
        assert forall i :: 0 <= i < |s.list| ==> s'.list[i] == s.list[i];
      }
    }
  }

  /** The messages a replacement appends. */
  ghost function Readded(current: seq<Message>, compressed: seq<Message>): (r: seq<Message>)
    ensures |r| == |compressed|
    ensures forall i :: 0 <= i < |r| ==>
              r[i] == if compressed[i].id.Some? && Has(current, compressed[i].id)
                      then Message(None, compressed[i].content, 0) else compressed[i]
  {
    seq(|compressed|, i requires 0 <= i < |compressed| =>
      if compressed[i].id.Some? && Has(current, compressed[i].id)
      then Message(None, compressed[i].content, 0) else compressed[i])
  }

  lemma {:induction false} AppendsArePuts(current: seq<Message>, compressed: seq<Message>)
    ensures Appends(current, compressed) == Puts(Readded(current, compressed))
  {
    if compressed != [] {
      AppendsArePuts(current, compressed[1..]);
      assert Puts(Readded(current, compressed))[1..] == Puts(Readded(current, compressed[1..]));
    }
  }

  lemma {:induction false} KeepConcat(a: seq<Message>, b: seq<Message>, gone: set<Id>)
    ensures Keep(a + b, gone) == Keep(a, gone) + Keep(b, gone)
  {
    if a == [] {
      assert a + b == b;
    } else {
      KeepConcat(a[1..], b, gone);
      assert a + b == [a[0]] + (a[1..] + b);
      assert [a[0]] + (Keep(a[1..], gone) + Keep(b, gone)) == [a[0]] + Keep(a[1..], gone) + Keep(b, gone);
    }
  }

  lemma {:induction false} KeepShortens(list: seq<Message>, gone: set<Id>)
    ensures |Keep(list, gone)| <= |list|
  {
    if list != [] {
      KeepShortens(list[1..], gone);
    }
  }

  lemma {:induction false} KeepNone(list: seq<Message>, gone: set<Id>)
    requires forall i :: 0 <= i < |list| ==> list[i].id.Some? && list[i].id.value in gone
    ensures Keep(list, gone) == []
  {
    if list != [] {
      KeepNone(list[1..], gone);
    }
  }

  lemma {:induction false} KeepAll(list: seq<Message>, gone: set<Id>)
    requires forall i :: 0 <= i < |list| ==> list[i].id.Some? && list[i].id.value !in gone
    ensures Keep(list, gone) == list
  {
    if list != [] {
      KeepAll(list[1..], gone);
    }
  }

  /** What `Stamps` keeps: contents, order, ids that were there; the other ids are fresh. */
  lemma {:induction false} StampsKeep(ms: seq<Message>, supply: seq<Id>, i: nat)
    requires |supply| >= |ms| && i < |ms|
    ensures Stamps(ms, supply)[i].content == ms[i].content
    ensures ms[i].id.Some? ==> Stamps(ms, supply)[i] == ms[i]
    ensures ms[i].id == None ==> Stamps(ms, supply)[i].id.Some? && Stamps(ms, supply)[i].id.value in supply
    decreases |ms|
  {
    if i > 0 {
      StampsKeep(ms[1..], if ms[0].id.Some? then supply else supply[1..], i - 1);
    }
  }

  lemma UnusedByReadded(current: seq<Message>, compressed: seq<Message>, supply: seq<Id>)
    requires FreshFor(supply, current, compressed)
    ensures Unused(supply, current, Readded(current, compressed))
  {
    var ms := Readded(current, compressed);
    forall i | 0 <= i < |supply| ensures !Has(ms, Some(supply[i])) {
      HasMember(ms, Some(supply[i]));
      HasMember(compressed, Some(supply[i]));
    }
  }

  lemma ReaddedNew(current: seq<Message>, compressed: seq<Message>)
    ensures AllNew(current, Readded(current, compressed)) <==> ForeignDistinct(current, compressed)
  {
    var ms := Readded(current, compressed);
    if !ForeignDistinct(current, compressed) {
      var i, j :| 0 <= i < j < |compressed| && compressed[i].id == compressed[j].id && compressed[i].id.Some?
                  && !Has(current, compressed[i].id);
      assert ms[i].id == ms[j].id;
    }
  }

  /** How a replacement is replayed. */
  lemma ReplayReplacement(current: seq<Message>, compressed: seq<Message>, supply: seq<Id>) returns (r: seq<Message>)
    requires Stamped(current) && FreshFor(supply, current, compressed) && !IsPureDeletion(current, compressed)
    ensures Reduce(current, UpdateFor(current, compressed), supply) == Some(r)
    ensures ForeignDistinct(current, compressed) ==> r == Stamps(Readded(current, compressed), supply)
    ensures !ForeignDistinct(current, compressed) ==> |r| < |compressed|
  {
    var ms := Readded(current, compressed);
    var gone := Dropped(current, []);
    AppendsArePuts(current, compressed);
    forall i | 0 <= i < |current|
      ensures current[i].id.Some? && Has(current, current[i].id) && current[i].id.value in gone
    {
      PositionOf(current, i);
      DroppedExact(current, [], current[i].id.value);
    }
    var s := Merge(current, {}, supply);
    RunRemovals(s, current, [], Puts(ms));
    assert s.gone + gone == gone;
    UnusedByReadded(current, compressed, supply);
    forall i | 0 <= i < |ms| && ms[i].id.Some? ensures ms[i].id.value !in gone {
      DroppedExact(current, [], ms[i].id.value);
    }
    var t := RunAppends(s.(gone := gone), ms);
    ReaddedNew(current, compressed);
    r := Keep(t.list, gone);
    var front, back := t.list[..|current|], t.list[|current|..];
    assert t.list == front + back;
    KeepConcat(front, back, gone);
    KeepNone(front, gone);
    KeepShortens(back, gone);
    if ForeignDistinct(current, compressed) {
      var u := RunNewAppends(s.(gone := gone), ms);
      assert back == Stamps(ms, supply);
      forall i | 0 <= i < |back| ensures back[i].id.Some? && back[i].id.value !in gone {
        StampsKeep(ms, supply, i);
        DroppedExact(current, [], back[i].id.value);
      }
      KeepAll(back, gone);
    }
  }

  // ---------------------------------------------------------------- main results

  /** Replaying the update never fails, and it rebuilds the compressed history - the same contents in the
      same order - if and only if no foreign id occurs twice in it. */
  lemma ReplayRebuilds(current: seq<Message>, compressed: seq<Message>, supply: seq<Id>) returns (r: seq<Message>)
    requires Stamped(current) && OneHeap(current, compressed) && FreshFor(supply, current, compressed)
    ensures Reduce(current, UpdateFor(current, compressed), supply) == Some(r)
    ensures Contents(r) == Contents(compressed) <==> ForeignDistinct(current, compressed)
    ensures IsPureDeletion(current, compressed) ==> r == compressed
    ensures ForeignDistinct(current, compressed) ==>
              && |r| == |compressed|
              && forall i :: 0 <= i < |r| && compressed[i].id.Some? && !Has(current, compressed[i].id) ==>
                   r[i] == compressed[i]
  {
    if IsPureDeletion(current, compressed) {
      ReplayDeletion(current, compressed, supply);
      r := compressed;
    } else {
      r := ReplayReplacement(current, compressed, supply);
      if ForeignDistinct(current, compressed) {
        forall i | 0 <= i < |r|
          ensures r[i].content == compressed[i].content
          ensures compressed[i].id.Some? && !Has(current, compressed[i].id) ==> r[i] == compressed[i]
        {
          StampsKeep(Readded(current, compressed), supply, i);
        }
        assert Contents(r) == Contents(compressed);
      } else {
        assert |Contents(r)| < |Contents(compressed)|;
      }
    }
  }

  lemma {:induction false} SelfSubset(ids: seq<Option<Id>>)
    ensures IsOrderedSubset(ids, ids)
  {
    if ids != [] {
      SelfSubset(ids[1..]);
    }
  }

  lemma {:induction false} NoRemovals(current: seq<Message>, kept: seq<Message>)
    ensures Removals(current, kept) == [] <==>
            forall i :: 0 <= i < |current| && current[i].id.Some? ==> Has(kept, current[i].id)
    decreases |current|
  {
    if current != [] {
      NoRemovals(current[1..], kept);
      assert current == [current[0]] + current[1..];
    }
  }

  lemma {:induction false} NoChanges(current: seq<Message>, compressed: seq<Message>)
    ensures Changed(current, compressed) == [] <==>
            forall i :: 0 <= i < |compressed| && compressed[i].id.Some? ==>
              Position(current, compressed[i].id) < |current| &&
              current[Position(current, compressed[i].id)].obj == compressed[i].obj
    decreases |compressed|
  {
    if compressed != [] {
      NoChanges(current, compressed[1..]);
      assert compressed == [compressed[0]] + compressed[1..];
    }
  }

  lemma EmptyDeletion(current: seq<Message>, compressed: seq<Message>)
    requires Stamped(current) && OneHeap(current, compressed) && IsPureDeletion(current, compressed)
    ensures UpdateFor(current, compressed) == [] <==> compressed == current
  {
    SubsetStamped(compressed, current);
    NoRemovals(current, compressed);
    NoChanges(current, compressed);
    forall i | 0 <= i < |current| ensures Has(current, current[i].id) && Position(current, current[i].id) == i {
      PositionOf(current, i);
    }
    if UpdateFor(current, compressed) == [] {
      KeepRebuilds(current, {}, compressed);
      KeepAll(current, {});
    }
  }

  /** The update is empty just when the compressed history is the current one. */
  lemma EmptyUpdateExact(current: seq<Message>, compressed: seq<Message>)
    requires Stamped(current) && OneHeap(current, compressed)
    ensures UpdateFor(current, compressed) == [] <==> compressed == current
  {
    if IsPureDeletion(current, compressed) {
      EmptyDeletion(current, compressed);
    } else {
      if compressed == current {
        forall i | 0 <= i < |current| ensures current[i].id.Some? && Has(current, current[i].id) {
          PositionOf(current, i);
        }
        SelfSubset(Ids(current));
        assert false;
      }
      NoRemovals(current, []);
      assert compressed == [] ==> Ids(compressed) == [];
      assert current != [] ==> !Has([], current[0].id);
    }
  }

  // ---------------------------------------------------------------- the reducer keeps what is asked

  /** The ids the commands bring in. */
  ghost predicate Mentions(cs: seq<Command>, id: Id) {
    exists i :: 0 <= i < |cs| && cs[i].Put? && cs[i].m.id == Some(id)
  }

  lemma {:induction false} StepsKeepStamped(s: Merge, cs: seq<Command>)
    requires Stamped(s.list) && Steps(s, cs).Some?
    requires forall i, j :: 0 <= i < j < |s.supply| ==> s.supply[i] != s.supply[j]
    requires forall i :: 0 <= i < |s.supply| ==> !Has(s.list, Some(s.supply[i])) && !Mentions(cs, s.supply[i])
    ensures Stamped(Steps(s, cs).value.list)
    decreases |cs|
  {
    if cs != [] {
      var t := Step(s, cs[0]).value;
      if cs[0].Put? {
        var m := cs[0].m;
        var p := Position(s.list, m.id);
        if m.id.Some? && p < |s.list| {
          assert Ids(t.list) == Ids(s.list);
          StampedByIds(s.list, t.list);
          SameIdsHas(s.list, t.list);
        } else {
          var n := if m.id.Some? then m else m.(id := Some(s.supply[0]));
          HasAppend(s.list, n);
          assert m.id.Some? ==> Mentions(cs, m.id.value);
        }
      }
      forall i | 0 <= i < |t.supply| ensures !Mentions(cs[1..], t.supply[i]) {
        forall k | 0 <= k < |cs[1..]| ensures !(cs[1..][k].Put? && cs[1..][k].m.id == Some(t.supply[i])) {
          assert cs[1..][k] == cs[k + 1];
        }
      }
      StepsKeepStamped(t, cs[1..]);
    }
  }

  lemma {:induction false} KeepStamped(list: seq<Message>, gone: set<Id>)
    requires Stamped(list)
    ensures Stamped(Keep(list, gone))
    ensures forall i :: 0 <= i < |Keep(list, gone)| ==> Keep(list, gone)[i] in list
  {
    if list != [] {
      KeepStamped(list[1..], gone);
      assert list == [list[0]] + list[1..];
      assert forall m :: m in list[1..] ==> m.id != list[0].id;
    }
  }

  /** Whatever is sent to the reducer, it leaves messages with ids, all different: so the demand on
      `current` holds at every checkpoint. */
  lemma ReducerKeepsStamped(left: seq<Message>, cs: seq<Command>, supply: seq<Id>)
    requires Stamped(left) && Reduce(left, cs, supply).Some?
    requires forall i, j :: 0 <= i < j < |supply| ==> supply[i] != supply[j]
    requires forall i :: 0 <= i < |supply| ==> !Has(left, Some(supply[i])) && !Mentions(cs, supply[i])
    ensures Stamped(Reduce(left, cs, supply).value)
  {
    var s := Merge(left, {}, supply);
    StepsKeepStamped(s, cs);
    KeepStamped(Steps(s, cs).value.list, Steps(s, cs).value.gone);
  }

  // ---------------------------------------------------------------- which commands are sent

  /** The id stands on a message of the list. */
  ghost predicate Bears(list: seq<Message>, id: Id) {
    exists i :: 0 <= i < |list| && list[i].id == Some(id)
  }

  /** The message is, as an object, one of the list. */
  ghost predicate SameObject(list: seq<Message>, m: Message) {
    exists i :: 0 <= i < |list| && list[i].id == m.id && list[i].obj == m.obj
  }

  /** The history is trimmed, in the code's eyes, exactly when all its messages have ids and these are a subsequence of
      the current ones. */
  lemma PureDeletionExact(current: seq<Message>, compressed: seq<Message>)
    ensures IsPureDeletion(current, compressed)
       <==> None !in Ids(compressed) && IsSubsequence(Ids(compressed), Ids(current))
    ensures Stamped(current) && IsSubsequence(Ids(compressed), Ids(current)) ==> IsPureDeletion(current, compressed)
  {
    OrderedSubsetExact(Ids(compressed), Ids(current));
    if IsSubsequence(Ids(compressed), Ids(current)) {
      forall i | 0 <= i < |compressed| ensures Has(current, compressed[i].id) {
        assert Ids(compressed)[i] in Ids(current);
      }
    }
  }

  lemma {:induction false} RemovalsHas(current: seq<Message>, kept: seq<Message>, id: Id)
    ensures Remove(id) in Removals(current, kept) <==> Bears(current, id) && !Bears(kept, id)
    ensures forall c :: c in Removals(current, kept) ==> c.Remove?
    decreases |current|
  {
    if current != [] {
      RemovalsHas(current[1..], kept, id);
      HasMember(kept, current[0].id);
      assert Bears(current, id) <==> current[0].id == Some(id) || Bears(current[1..], id) by {
        assert current == [current[0]] + current[1..];
      }
    }
  }

  lemma ObjectAt(current: seq<Message>, m: Message)
    requires Stamped(current)
    ensures var i := Position(current, m.id); SameObject(current, m) <==> i < |current| && current[i].obj == m.obj
  {
    if i :| 0 <= i < |current| && current[i].id == m.id && current[i].obj == m.obj {
      PositionOf(current, i);
    }
  }

  lemma {:induction false} ChangedHas(current: seq<Message>, compressed: seq<Message>, m: Message)
    requires Stamped(current)
    ensures Put(m) in Changed(current, compressed) <==> m in compressed && m.id.Some? && !SameObject(current, m)
    ensures forall c :: c in Changed(current, compressed) ==> c.Put?
    decreases |compressed|
  {
    if compressed != [] {
      ChangedHas(current, compressed[1..], m);
      assert compressed == [compressed[0]] + compressed[1..];
      ObjectAt(current, compressed[0]);
    }
  }

  /** A trimmed history, the messages kept in order with their ids: the commands remove just the ids left out and put
      just the messages that are no longer the same objects, and replaying them gives the history, ids included. */
  lemma TrimmedReplayed(current: seq<Message>, compressed: seq<Message>, supply: seq<Id>)
    requires Stamped(current) && OneHeap(current, compressed) && IsSubsequence(Ids(compressed), Ids(current))
    ensures Reduce(current, UpdateFor(current, compressed), supply) == Some(compressed)
    ensures forall id :: Remove(id) in UpdateFor(current, compressed) <==> Bears(current, id) && !Bears(compressed, id)
    ensures forall m :: Put(m) in UpdateFor(current, compressed) <==> m in compressed && !SameObject(current, m)
  {
    PureDeletionExact(current, compressed);
    ReplayDeletion(current, compressed, supply);
    SubsetStamped(compressed, current);
    forall id ensures Remove(id) in UpdateFor(current, compressed) <==> Bears(current, id) && !Bears(compressed, id) {
      RemovalsHas(current, compressed, id);
      ChangedHas(current, compressed, Message(None, [], 0));
    }
    forall m ensures Put(m) in UpdateFor(current, compressed) <==> m in compressed && !SameObject(current, m) {
      RemovalsHas(current, compressed, []);
      ChangedHas(current, compressed, m);
    }
  }

  /** What is sent again: a copy without its id if the id is a current one. */
  ghost predicate SentAgain(current: seq<Message>, m: Message, c: Command) {
    c == Put(if m.id.Some? && Bears(current, m.id.value) then Message(None, m.content, 0) else m)
  }

  lemma {:induction false} AppendsAt(current: seq<Message>, compressed: seq<Message>, j: nat)
    requires j < |compressed|
    ensures |Appends(current, compressed)| == |compressed|
    ensures SentAgain(current, compressed[j], Appends(current, compressed)[j])
    decreases |compressed|
  {
    HasMember(current, compressed[0].id);
    if j > 0 {
      AppendsAt(current, compressed[1..], j - 1);
    } else if |compressed| > 1 {
      AppendsAt(current, compressed[1..], 0);
    }
  }

  lemma {:induction false} RemovalsAt(current: seq<Message>, i: nat)
    requires i < |current| && forall k :: 0 <= k < |current| ==> current[k].id.Some?
    ensures |Removals(current, [])| == |current| && Removals(current, [])[i] == Remove(current[i].id.value)
    decreases |current|
  {
    if i > 0 {
      RemovalsAt(current[1..], i - 1);
    } else if |current| > 1 {
      RemovalsAt(current[1..], 0);
    }
  }

  /** Any other history replaces the current one: every current message is removed, in order, and then every message
      of the history is sent again, in order. */
  lemma ReplacedCommands(current: seq<Message>, compressed: seq<Message>)
    requires Stamped(current) && !IsSubsequence(Ids(compressed), Ids(current))
    ensures var update := UpdateFor(current, compressed);
      && |update| == |current| + |compressed|
      && (forall i :: 0 <= i < |current| ==> update[i] == Remove(current[i].id.value))
      && (forall j :: 0 <= j < |compressed| ==> SentAgain(current, compressed[j], update[|current| + j]))
  {
    PureDeletionExact(current, compressed);
    OrderedSubsetExact(Ids(compressed), Ids(current));
    var r, a := Removals(current, []), Appends(current, compressed);
    assert UpdateFor(current, compressed) == r + a;
    assert |r| == |current| && |a| == |compressed| by {
      if current != [] { RemovalsAt(current, 0); }
      if compressed != [] { AppendsAt(current, compressed, 0); }
    }
    forall i | 0 <= i < |current| ensures (r + a)[i] == Remove(current[i].id.value) {
      RemovalsAt(current, i);
    }
    forall j | 0 <= j < |compressed| ensures SentAgain(current, compressed[j], (r + a)[|current| + j]) {
      AppendsAt(current, compressed, j);
    }
  }

  // ---------------------------------------------------------------- the code

  method EmitRemovals(current: seq<Message>, kept: seq<Message>) returns (update: seq<Command>)
    ensures update == Removals(current, kept)
  {
    update := [];
    for i := 0 to |current|
      invariant update + Removals(current[i..], kept) == Removals(current, kept)
    {
      var m := current[i];
      assert current[i..][0] == m && current[i..][1..] == current[i + 1..];
      if m.id.Some? && !Has(kept, m.id) {
        assert update + ([Remove(m.id.value)] + Removals(current[i + 1..], kept))
            == update + [Remove(m.id.value)] + Removals(current[i + 1..], kept);
        update := update + [Remove(m.id.value)];
      }
    }
    assert current[|current|..] == [];
  }

  method EmitChanged(current: seq<Message>, compressed: seq<Message>, before: seq<Command>)
    returns (update: seq<Command>)
    ensures update == before + Changed(current, compressed)
  {
    update := before;
    for i := 0 to |compressed|
      invariant update + Changed(current, compressed[i..]) == before + Changed(current, compressed)
    {
      var m := compressed[i];
      var at := Position(current, m.id);
      assert compressed[i..][0] == m && compressed[i..][1..] == compressed[i + 1..];
      if m.id.Some? && !(at < |current| && current[at].obj == m.obj) {
        assert update + ([Put(m)] + Changed(current, compressed[i + 1..]))
            == update + [Put(m)] + Changed(current, compressed[i + 1..]);
        update := update + [Put(m)];
      }
    }
    assert compressed[|compressed|..] == [];
  }

  method EmitAppends(current: seq<Message>, compressed: seq<Message>, before: seq<Command>)
    returns (update: seq<Command>)
    ensures update == before + Appends(current, compressed)
  {
    update := before;
    for i := 0 to |compressed|
      invariant update + Appends(current, compressed[i..]) == before + Appends(current, compressed)
    {
      var m := compressed[i];
      assert compressed[i..][0] == m && compressed[i..][1..] == compressed[i + 1..];
      var c := Put(if m.id.Some? && Has(current, m.id) then Message(None, m.content, 0) else m);
      assert update + ([c] + Appends(current, compressed[i + 1..]))
          == update + [c] + Appends(current, compressed[i + 1..]);
      update := update + [c];
    }
    assert compressed[|compressed|..] == [];
  }

  /** `_messages_state_update`. */
  method MessagesStateUpdate(current: seq<Message>, compressed: seq<Message>) returns (update: seq<Command>)
    ensures update == UpdateFor(current, compressed)
  {
    if IsPureDeletion(current, compressed) {
      update := EmitRemovals(current, compressed);
      update := EmitChanged(current, compressed, update);
    } else {
      update := EmitRemovals(current, []);
      update := EmitAppends(current, compressed, update);
    }
  }

  // ---------------------------------------------------------------- the reducer, command by command

  /** A remove needs an id that is there and marks it; a message with a known id takes the place of the one that has it
      and is no longer marked; any other comes last, with a fresh id if it has none. */
  lemma ReducerSteps(s: Merge, id: Id, m: Message, i: nat)
    requires Stamped(s.list) && i < |s.list|
    ensures Step(s, Remove(id)) == if Bears(s.list, id) then Some(Merge(s.list, s.gone + {id}, s.supply)) else None
    ensures m.id.Some? && s.list[i].id == m.id ==>
      Step(s, Put(m)) == Some(Merge(s.list[i := m], s.gone - {m.id.value}, s.supply))
    ensures m.id.Some? && !Bears(s.list, m.id.value) ==> Step(s, Put(m)) == Some(Merge(s.list + [m], s.gone, s.supply))
    ensures m.id.None? && s.supply != [] ==>
      Step(s, Put(m)) == Some(Merge(s.list + [Message(Some(s.supply[0]), m.content, m.obj)], s.gone, s.supply[1..]))
  {
    HasMember(s.list, Some(id));
    HasMember(s.list, m.id);
    PositionOf(s.list, i);
  }
}
