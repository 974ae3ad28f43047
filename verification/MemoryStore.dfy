/** Memory operations, interleaved. */
module MemoryStore {
  import opened Ordering
  import opened MemoryDocument
  import opened MemoryIndex
  import opened MemoryListing
  import opened MemoryLimits

  // ---------------------------------------------------------------- writes of many tasks, step by step

  datatype Op = Update(entry: Entry) | Delete(category: string, slug: string) | Clear

  /** Before the index lock, inside it, after the documents changed, after the index was written, and gone. */
  datatype Stage = Waiting | Inside | Changed | Indexed | Gone

  datatype Task = Task(op: Op, stage: Stage)

  /** `holder` is the task in the critical section of the index lock; `date` is that of the last rebuild. */
  datatype Store = Store(
    categories: seq<string>, maxEntries: nat, docs: Docs, index: Option<string>, date: Option<string>,
    holder: Option<nat>, tasks: seq<Task>)

  /** One step of a task. A step that reads the directories meets their files in the order `files`. */
  datatype Move = Move(task: nat, files: seq<Key>, today: string, tooLarge: bool)

  ghost predicate Enabled(s: Store, m: Move) {
    && m.task < |s.tasks| && !s.tasks[m.task].stage.Gone? && Listing(s.docs, m.files)
    && (if s.tasks[m.task].stage.Waiting? then s.holder.None? else s.holder == Some(m.task))
  }

  function At(s: Store, t: nat, stage: Stage): Store
    requires t < |s.tasks|
  {
    s.(tasks := s.tasks[t := s.tasks[t].(stage := stage)])
  }

  function Leave(s: Store, t: nat): Store
    requires t < |s.tasks|
  {
    At(s, t, Gone).(holder := None)
  }

  /** The first step inside the lock: the check and the change of the documents. */
  function Change(s: Store, m: Move): Store
    requires m.task < |s.tasks|
  {
    match s.tasks[m.task].op
    case Update(e) =>
      if Allowed(s.docs, s.categories, m.files, s.maxEntries, e, m.tooLarge)
      then At(s, m.task, Changed).(docs := Written(s.docs, e))
      else Leave(s, m.task)
    case Delete(c, slug) => At(s, m.task, Changed).(docs := s.docs - {(c, slug)})
    case Clear => At(s, m.task, Changed).(docs := Cleared(s.docs, s.categories))
  }

  ghost function Next(s: Store, m: Move): Store {
    if !Enabled(s, m) then s
    else
      match s.tasks[m.task].stage
      case Waiting => At(s, m.task, Inside).(holder := Some(m.task))
      case Inside => Change(s, m)
      case Changed =>
        At(s, m.task, Indexed).(index := Some(IndexText(s.docs, s.categories, m.files, m.today)), date := Some(m.today))
      case Indexed => Leave(s, m.task)
      case Gone => s
  }

  /** The index is the one built from the documents, as they are listed in some order. */
  ghost predicate Current(s: Store) {
    s.date.Some? ==>
      exists files :: Listing(s.docs, files) && s.index == Some(IndexText(s.docs, s.categories, files, s.date.value))
  }

  /** Whether some task has changed the documents and not yet written the index. */
  predicate Rebuilding(s: Store) {
    s.holder.Some? && s.holder.value < |s.tasks| && s.tasks[s.holder.value].stage.Changed?
  }

  /** The task that holds the lock is the one that has entered and not left. */
  ghost predicate OneInside(holder: Option<nat>, tasks: seq<Task>) {
    forall t :: 0 <= t < |tasks| ==>
      (holder == Some(t) <==> !tasks[t].stage.Waiting? && !tasks[t].stage.Gone?)
  }

  ghost predicate StoreOk(s: Store) {
    OneInside(s.holder, s.tasks) && (Rebuilding(s) || Current(s))
  }

  lemma MoveHolder(s: Store, m: Move)
    requires OneInside(s.holder, s.tasks) && Enabled(s, m)
    ensures OneInside(Next(s, m).holder, Next(s, m).tasks)
  {
    var stage := Next(s, m).tasks[m.task].stage;
    assert Next(s, m).tasks == s.tasks[m.task := s.tasks[m.task].(stage := stage)];
  }

  /** A step inside the lock that changes neither documents nor index. */
  lemma SameIndex(s: Store, n: Store)
    requires Current(s) && n.docs == s.docs && n.index == s.index && n.date == s.date && n.categories == s.categories
    ensures Current(n)
  {
  }

  lemma ChangeCurrent(s: Store, m: Move)
    requires Enabled(s, m) && s.tasks[m.task].stage.Inside? && Current(s)
    ensures Rebuilding(Change(s, m)) || Current(Change(s, m))
  {
    var n := Change(s, m);
    if n.tasks[m.task].stage.Gone? {
      SameIndex(s, n);
    }
  }

  lemma MoveCurrent(s: Store, m: Move)
    requires StoreOk(s) && Enabled(s, m)
    ensures Rebuilding(Next(s, m)) || Current(Next(s, m))
  {
    var n := Next(s, m);
    match s.tasks[m.task].stage
    case Waiting => SameIndex(s, n);
    case Inside => ChangeCurrent(s, m);
    case Changed =>
      assert Listing(n.docs, m.files) && n.index == Some(IndexText(n.docs, n.categories, m.files, n.date.value));
    case Indexed => SameIndex(s, n);
  }

  lemma MoveKeeps(s: Store, m: Move)
    requires StoreOk(s) && Enabled(s, m)
    ensures StoreOk(Next(s, m))
  {
    MoveHolder(s, m);
    MoveCurrent(s, m);
  }

  ghost function RunMoves(s: Store, moves: seq<Move>): Store
    decreases |moves|
  {
    if moves == [] then s else RunMoves(Next(s, moves[0]), moves[1..])
  }

  ghost predicate Initial(s: Store) {
    s.date.None? && s.holder.None? && forall t :: 0 <= t < |s.tasks| ==> s.tasks[t].stage.Waiting?
  }

  lemma {:induction false} MovesKeep(s: Store, moves: seq<Move>)
    requires StoreOk(s)
    ensures StoreOk(RunMoves(s, moves))
    decreases |moves|
  {
    if moves != [] {
      if Enabled(s, moves[0]) {
        MoveKeeps(s, moves[0]);
      }
      MovesKeep(Next(s, moves[0]), moves[1..]);
    }
  }

  /** Over any interleaving of updates, deletions and clearings, whenever the index lock is free and something has
      been written, the index is the one built from the documents there are. */
  lemma IndexIsCurrent(s: Store, moves: seq<Move>)
    requires Initial(s)
    ensures RunMoves(s, moves).holder.None? ==> Current(RunMoves(s, moves))
  {
    MovesKeep(s, moves);
  }

  /** Listed documents say their directory's category, and the entries to be written keep their labels. */
  ghost predicate Orderly(s: Store) {
    && Labelled(s.docs, s.categories)
    && forall t :: 0 <= t < |s.tasks| && s.tasks[t].op.Update? ==> KeepsLabel(s.tasks[t].op.entry, s.categories)
  }

  lemma {:induction false} Subset<T>(a: set<T>, b: set<T>)
    requires a <= b
    ensures |a| <= |b|
    decreases |a|
  {
    if a != {} {
      var x :| x in a;
      Subset(a - {x}, b - {x});
    }
  }

  lemma FewerDocs(docs: Docs, more: Docs, categories: seq<string>)
    requires forall k :: k in docs ==> k in more && docs[k] == more[k]
    ensures |ListedKeys(docs, categories)| <= |ListedKeys(more, categories)|
    ensures Labelled(more, categories) ==> Labelled(docs, categories)
  {
    forall k | IsListed(docs, categories, k)
      ensures IsListed(more, categories, k) && EntryAt(docs, k) == EntryAt(more, k)
    {
    }
    Subset(ListedKeys(docs, categories), ListedKeys(more, categories));
  }

  lemma ChangeStaysOrderly(s: Store, m: Move)
    requires Orderly(s) && Enabled(s, m) && |ListedKeys(s.docs, s.categories)| <= s.maxEntries
    ensures Labelled(Change(s, m).docs, s.categories)
    ensures |ListedKeys(Change(s, m).docs, s.categories)| <= s.maxEntries
  {
    match s.tasks[m.task].op {
      case Update(e) =>
        if Allowed(s.docs, s.categories, m.files, s.maxEntries, e, m.tooLarge) {
          LimitKept(s.docs, s.categories, m.files, s.maxEntries, e, m.tooLarge);
          WrittenLabelledExact(s.docs, s.categories, e);
        }
      case Delete(_, _) => FewerDocs(Change(s, m).docs, s.docs, s.categories);
      case Clear => FewerDocs(Change(s, m).docs, s.docs, s.categories);
    }
  }

  lemma MoveFrame(s: Store, m: Move)
    requires Enabled(s, m)
    ensures Next(s, m).categories == s.categories && Next(s, m).maxEntries == s.maxEntries
    ensures Next(s, m).docs == if s.tasks[m.task].stage.Inside? then Change(s, m).docs else s.docs
    ensures exists stage :: Next(s, m).tasks == s.tasks[m.task := s.tasks[m.task].(stage := stage)]
  {
    var stage := Next(s, m).tasks[m.task].stage;
    assert Next(s, m).tasks == s.tasks[m.task := s.tasks[m.task].(stage := stage)];
  }

  lemma MoveStaysOrderly(s: Store, m: Move)
    requires Orderly(s) && Enabled(s, m) && |ListedKeys(s.docs, s.categories)| <= s.maxEntries
    ensures Orderly(Next(s, m))
    ensures |ListedKeys(Next(s, m).docs, s.categories)| <= s.maxEntries
    ensures Next(s, m).categories == s.categories && Next(s, m).maxEntries == s.maxEntries
  {
    ChangeStaysOrderly(s, m);
    MoveFrame(s, m);
    var n := Next(s, m);
    forall t | 0 <= t < |n.tasks| && n.tasks[t].op.Update? ensures KeepsLabel(n.tasks[t].op.entry, n.categories) {
      assert n.tasks[t].op == s.tasks[t].op;
    }
  }

  lemma {:induction false} MovesStayOrderly(s: Store, moves: seq<Move>)
    requires Orderly(s) && |ListedKeys(s.docs, s.categories)| <= s.maxEntries
    ensures Orderly(RunMoves(s, moves))
    ensures |ListedKeys(RunMoves(s, moves).docs, s.categories)| <= s.maxEntries
    ensures RunMoves(s, moves).categories == s.categories
    decreases |moves|
  {
    if moves != [] {
      if Enabled(s, moves[0]) {
        MoveStaysOrderly(s, moves[0]);
      }
      MovesStayOrderly(Next(s, moves[0]), moves[1..]);
    }
  }

  /** From labelled documents and with entries that keep their labels, the number of listed documents never passes the
      limit, nor does that of a scan where no category is repeated; and whenever the lock is free after a write the
      index is the one built from the documents, in whatever order they are listed. */
  lemma StoreStaysExact(s: Store, moves: seq<Move>, files: seq<Key>)
    requires Initial(s) && Orderly(s) && |ListedKeys(s.docs, s.categories)| <= s.maxEntries
    requires Listing(RunMoves(s, moves).docs, files)
    ensures var n := RunMoves(s, moves);
      && |ListedKeys(n.docs, n.categories)| <= s.maxEntries
      && (NoRepeats(n.categories) ==> |Scan(n.docs, n.categories, files)| <= s.maxEntries)
      && (n.holder.None? && n.date.Some? ==> n.index == Some(IndexText(n.docs, n.categories, files, n.date.value)))
  {
    var n := RunMoves(s, moves);
    MovesStayOrderly(s, moves);
    IndexIsCurrent(s, moves);
    ScanCount(n.docs, n.categories, files);
    if NoRepeats(n.categories) {
      forall k | IsListed(n.docs, n.categories, k)
        ensures Times(n.categories, EntryAt(n.docs, k).value.category) == 1
      {
        TimesOnce(n.categories, EntryAt(n.docs, k).value.category);
      }
    }
    if n.holder.None? && n.date.Some? {
      var f :| Listing(n.docs, f) && n.index == Some(IndexText(n.docs, n.categories, f, n.date.value));
      ListingIrrelevant(n.docs, n.categories, f, files, n.date.value);
    }
  }

  // ---------------------------------------------------------------- a run that passes the limit

  /** The four steps of one task. */
  function UpdateMoves(t: nat, before: seq<Key>, after: seq<Key>): seq<Move> {
    [Move(t, before, [], false), Move(t, before, [], false), Move(t, after, [], false), Move(t, after, [], false)]
  }

  lemma RunFour(s: Store, m: seq<Move>)
    requires |m| == 4
    ensures RunMoves(s, m) == Next(Next(Next(Next(s, m[0]), m[1]), m[2]), m[3])
  {
    var a := Next(s, m[0]);
    var b := Next(a, m[1]);
    var c := Next(b, m[2]);
    assert m[1..][1..] == m[2..] && m[2..][1..] == m[3..] && m[3..][1..] == [];
    assert RunMoves(c, m[3..]) == Next(c, m[3]);
    assert RunMoves(s, m) == RunMoves(a, m[1..]) == RunMoves(b, m[2..]) == RunMoves(c, m[3..]);
  }

  /** An update that is let through, run from its start to its end. */
  lemma UpdateRun(s: Store, t: nat, before: seq<Key>, after: seq<Key>)
    requires t < |s.tasks| && s.tasks[t].op.Update? && s.tasks[t].stage.Waiting? && s.holder.None?
    requires Listing(s.docs, before) && Listing(Written(s.docs, s.tasks[t].op.entry), after)
    requires Allowed(s.docs, s.categories, before, s.maxEntries, s.tasks[t].op.entry, false)
    ensures var n := RunMoves(s, UpdateMoves(t, before, after));
      && n.docs == Written(s.docs, s.tasks[t].op.entry) && n.holder.None?
      && n.date == Some([]) && n.index == Some(IndexText(n.docs, n.categories, after, []))
      && n.tasks == s.tasks[t := s.tasks[t].(stage := Gone)]
      && n.categories == s.categories && n.maxEntries == s.maxEntries
  {
    var m := UpdateMoves(t, before, after);
    var a := Next(s, m[0]);
    var b := Next(a, m[1]);
    RunFour(s, m);
    assert b.docs == Written(s.docs, s.tasks[t].op.entry) && b.tasks[t].stage.Changed?;
    assert Next(b, m[2]).docs == b.docs && Next(b, m[2]).tasks[t].stage.Indexed?;
  }

  lemma {:induction false} RunMovesConcat(s: Store, a: seq<Move>, b: seq<Move>)
    ensures RunMoves(s, a + b) == RunMoves(RunMoves(s, a), b)
    decreases |a|
  {
    if a == [] {
      assert a + b == b;
    } else {
      RunMovesConcat(Next(s, a[0]), a[1..], b);
      assert (a + b)[1..] == a[1..] + b && (a + b)[0] == a[0];
    }
  }

  /** An empty store and two updates to be made. */
  function TwoUpdates(categories: seq<string>, maxEntries: nat, w: Entry, p: Entry): Store {
    Store(categories, maxEntries, map[], None, None, None, [Task(Update(w), Waiting), Task(Update(p), Waiting)])
  }

  lemma TwoUpdatesRun(categories: seq<string>, maxEntries: nat, w: Entry, p: Entry) returns (moves: seq<Move>)
    requires BothAllowed(categories, maxEntries, w, p)
    ensures var n := RunMoves(TwoUpdates(categories, maxEntries, w, p), moves);
      && n.docs == Written(Written(map[], w), p) && n.holder.None? && n.date == Some([])
      && n.categories == categories
      && n.index == Some(IndexText(n.docs, categories, [KeyOf(w), KeyOf(p)], []))
  {
    var s, k, l := TwoUpdates(categories, maxEntries, w, p), KeyOf(w), KeyOf(p);
    var a, b := UpdateMoves(0, [], [k]), UpdateMoves(1, [k], [k, l]);
    UpdateRun(s, 0, [], [k]);
    UpdateRun(RunMoves(s, a), 1, [k], [k, l]);
    moves := a + b;
    RunMovesConcat(s, a, b);
  }

  lemma TwoUpdatesStart(categories: seq<string>, w: Entry, p: Entry)
    ensures var s := TwoUpdates(categories, 1, w, p);
      Initial(s) && s.docs == map[] && s.maxEntries == 1 && Labelled(s.docs, categories)
  {
  }

  /** A run of two updates, from an empty store with a limit of one, after which two documents are listed: the first
      entry's summary holds the category field of the second, which `update_memory` does not refuse. */
  lemma LimitPassed(e: Entry, w: Entry, p: Entry, categories: seq<string>) returns (moves: seq<Move>)
    requires Storable(e) && e.summary != [] && Storable(p) && e.slug == p.slug != INDEX_SLUG
    requires e.category != p.category && e.category in categories && p.category in categories
    requires w == Injected(e, p.category)
    ensures var s := TwoUpdates(categories, 1, w, p);
      && Initial(s) && s.docs == map[] && s.maxEntries == 1 && Labelled(s.docs, categories)
      && !KeepsLabel(w, categories) && |ListedKeys(RunMoves(s, moves).docs, categories)| == 2
  {
    UpdatesOverflow(e, p, categories);
    LabelExamples(e, p.category, categories);
    TwoUpdatesStart(categories, w, p);
    moves := TwoUpdatesRun(categories, 1, w, p);
  }

  // ---------------------------------------------------------------- what a task does to the documents

  /** The one step of a task that changes documents: an update that is let through writes its entry's document, a
      deletion takes one away, clearing takes those of listed categories; then the index is still to be written. */
  lemma ChangesDocuments(s: Store, m: Move)
    requires Enabled(s, m)
    ensures var n, op := Next(s, m), s.tasks[m.task].op;
      if !s.tasks[m.task].stage.Inside? then n.docs == s.docs
      else if op.Update? && !Allowed(s.docs, s.categories, m.files, s.maxEntries, op.entry, m.tooLarge) then
        n.docs == s.docs && n.index == s.index && n.holder.None? && n.tasks[m.task].stage == Gone
      else
        && n.index == s.index && n.holder == s.holder && n.tasks[m.task].stage == Changed
        && match op {
             case Update(e) => n.docs == s.docs[(e.category, e.slug) := Serialize(e)]
             case Delete(c, slug) => n.docs == s.docs - {(c, slug)}
             case Clear =>
               && (forall k :: k in n.docs <==> k in s.docs && k.0 !in s.categories)
               && (forall k :: k in n.docs ==> n.docs[k] == s.docs[k])
           }
  {
  }

  /** A task enters when nobody is inside, then changes documents, then writes the index from the documents there are,
      and then leaves. */
  lemma StagesInOrder(s: Store, m: Move)
    requires Enabled(s, m)
    ensures var n := Next(s, m);
      match s.tasks[m.task].stage {
        case Waiting =>
          s.holder.None? && n.holder == Some(m.task) && n.tasks[m.task].stage == Inside && n.index == s.index
        case Inside => s.holder == Some(m.task) && n.index == s.index
        case Changed =>
          && s.holder == n.holder == Some(m.task) && n.tasks[m.task].stage == Indexed
          && n.index == Some(IndexText(s.docs, s.categories, m.files, m.today)) && n.date == Some(m.today)
        case Indexed => n.holder.None? && n.tasks[m.task].stage == Gone && n.index == s.index
        case Gone => false
      }
  {
  }
}
