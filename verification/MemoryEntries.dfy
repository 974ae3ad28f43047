/** Exactly which entries may be written. */
module MemoryEntries {
  import opened Ordering
  import opened MemoryDocument
  import opened MemoryIndex
  import opened MemoryListing
  import opened MemoryLimits
  import opened MemoryStore

  /** What the document written for an entry is read back as, under the slug of its file. */
  function ReadBack(e: Entry): Option<Entry> {
    EntryAt(Written(map[], e), KeyOf(e))
  }

  /** The document written for the entry is turned into an entry of a listed category by a scan. */
  predicate Shows(e: Entry, categories: seq<string>) {
    e.category in categories && ReadBack(e).Some? && ReadBack(e).value.category in categories
  }

  /** Written under another category, `w` is read back as an entry of the category of `p` with the slug of `p`. */
  predicate Intrudes(w: Entry, p: Entry, categories: seq<string>) {
    && Shows(w, categories) && Shows(p, categories)
    && w.category != p.category && w.slug == p.slug && ReadBack(w).value.category == p.category
  }

  /** Written under different keys, the two are read back with one category, slug and date and different lines. */
  predicate Clashes(w: Entry, p: Entry, categories: seq<string>) {
    && Shows(w, categories) && Shows(p, categories) && KeyOf(w) != KeyOf(p)
    && var a, b := ReadBack(w).value, ReadBack(p).value;
       a.category == b.category && a.slug == b.slug && a.updated == b.updated && Line(a) != Line(b)
  }

  ghost predicate IsDocumentOf(docs: Docs, k: Key, may: iset<Entry>, e: Entry) {
    e in may && k == KeyOf(e) && k in docs && docs[k] == Serialize(e)
  }

  /** Every document is that of an entry that may be written. */
  ghost predicate WrittenFrom(docs: Docs, may: iset<Entry>) {
    forall k :: k in docs ==> exists e :: IsDocumentOf(docs, k, may, e)
  }

  ghost predicate Updates(tasks: seq<Task>, may: iset<Entry>) {
    forall t :: 0 <= t < |tasks| && tasks[t].op.Update? ==> tasks[t].op.entry in may
  }

  /** An empty store before any of its tasks, the updates among them of entries that may be written. */
  ghost predicate FromNothing(s: Store, categories: seq<string>, may: iset<Entry>) {
    Initial(s) && s.docs == map[] && s.categories == categories && Updates(s.tasks, may)
  }

  lemma DocumentShows(docs: Docs, categories: seq<string>, k: Key, may: iset<Entry>, e: Entry)
    requires IsDocumentOf(docs, k, may, e)
    ensures EntryAt(docs, k) == ReadBack(e) && (IsListed(docs, categories, k) <==> Shows(e, categories))
  {
  }

  // ---------------------------------------------------------------- the limit

  ghost predicate NoIntruder(may: iset<Entry>, categories: seq<string>) {
    forall w, p :: w in may && p in may ==> !Intrudes(w, p, categories)
  }

  lemma WrittenStays(docs: Docs, may: iset<Entry>, e: Entry)
    requires WrittenFrom(docs, may) && e in may
    ensures WrittenFrom(Written(docs, e), may)
  {
    var w := Written(docs, e);
    forall k | k in w ensures exists x :: IsDocumentOf(w, k, may, x) {
      if k == KeyOf(e) {
        assert IsDocumentOf(w, k, may, e);
      } else {
        var x :| IsDocumentOf(docs, k, may, x);
        assert IsDocumentOf(w, k, may, x);
      }
    }
  }

  lemma FewerStay(docs: Docs, more: Docs, may: iset<Entry>)
    requires WrittenFrom(more, may) && forall k :: k in docs ==> k in more && docs[k] == more[k]
    ensures WrittenFrom(docs, may)
  {
    forall k | k in docs ensures exists x :: IsDocumentOf(docs, k, may, x) {
      var x :| IsDocumentOf(more, k, may, x);
      assert IsDocumentOf(docs, k, may, x);
    }
  }

  /** A write that passes the limit meets a document of an intruder. */
  lemma NoOverflow(docs: Docs, categories: seq<string>, files: seq<Key>, maxEntries: nat, e: Entry, may: iset<Entry>)
    requires Listing(docs, files) && |ListedKeys(docs, categories)| <= maxEntries
    requires WrittenFrom(docs, may) && e in may && NoIntruder(may, categories)
    requires Allowed(docs, categories, files, maxEntries, e, false)
    ensures |ListedKeys(Written(docs, e), categories)| <= maxEntries
  {
    OverflowExact(docs, categories, files, maxEntries, e);
    if |ListedKeys(Written(docs, e), categories)| > maxEntries {
      var k :| Claims(docs, categories, k, e);
      var w :| IsDocumentOf(docs, k, may, w);
      DocumentShows(docs, categories, k, may, w);
      assert IsDocumentOf(Written(docs, e), KeyOf(e), may, e);
      DocumentShows(Written(docs, e), categories, KeyOf(e), may, e);
      assert Intrudes(w, e, categories);
    }
  }

  lemma ChangeStays(s: Store, m: Move, may: iset<Entry>)
    requires Enabled(s, m) && WrittenFrom(s.docs, may) && Updates(s.tasks, may)
    ensures WrittenFrom(Change(s, m).docs, may)
    ensures NoIntruder(may, s.categories) && |ListedKeys(s.docs, s.categories)| <= s.maxEntries ==>
      |ListedKeys(Change(s, m).docs, s.categories)| <= s.maxEntries
  {
    match s.tasks[m.task].op {
      case Update(e) =>
        if Allowed(s.docs, s.categories, m.files, s.maxEntries, e, m.tooLarge) {
          WrittenStays(s.docs, may, e);
          if NoIntruder(may, s.categories) && |ListedKeys(s.docs, s.categories)| <= s.maxEntries {
            NoOverflow(s.docs, s.categories, m.files, s.maxEntries, e, may);
          }
        }
      case Delete(_, _) =>
        FewerStay(Change(s, m).docs, s.docs, may);
        FewerDocs(Change(s, m).docs, s.docs, s.categories);
      case Clear =>
        FewerStay(Change(s, m).docs, s.docs, may);
        FewerDocs(Change(s, m).docs, s.docs, s.categories);
    }
  }

  lemma MoveStays(s: Store, m: Move, may: iset<Entry>)
    requires Enabled(s, m) && WrittenFrom(s.docs, may) && Updates(s.tasks, may)
    ensures WrittenFrom(Next(s, m).docs, may) && Updates(Next(s, m).tasks, may)
    ensures Next(s, m).categories == s.categories && Next(s, m).maxEntries == s.maxEntries
    ensures NoIntruder(may, s.categories) && |ListedKeys(s.docs, s.categories)| <= s.maxEntries ==>
      |ListedKeys(Next(s, m).docs, s.categories)| <= s.maxEntries
  {
    ChangeStays(s, m, may);
    MoveFrame(s, m);
  }

  /** Over any moves the documents are those of entries that may be written, and without an intruder among these the
      limit is kept. */
  lemma {:induction false} MovesStay(s: Store, moves: seq<Move>, may: iset<Entry>)
    requires WrittenFrom(s.docs, may) && Updates(s.tasks, may)
    ensures WrittenFrom(RunMoves(s, moves).docs, may)
    ensures RunMoves(s, moves).categories == s.categories
    ensures NoIntruder(may, s.categories) && |ListedKeys(s.docs, s.categories)| <= s.maxEntries ==>
      |ListedKeys(RunMoves(s, moves).docs, s.categories)| <= s.maxEntries
    decreases |moves|
  {
    if moves != [] {
      if Enabled(s, moves[0]) {
        MoveStays(s, moves[0], may);
      }
      MovesStay(Next(s, moves[0]), moves[1..], may);
    }
  }

  /** The limit holds in every state that any moves of any tasks lead to. */
  ghost predicate LimitHolds(categories: seq<string>, may: iset<Entry>) {
    forall s, moves :: FromNothing(s, categories, may) ==>
      |ListedKeys(RunMoves(s, moves).docs, categories)| <= s.maxEntries
  }

  lemma UpdatesFromNothing(categories: seq<string>, maxEntries: nat, w: Entry, p: Entry, may: iset<Entry>)
    requires w in may && p in may
    ensures FromNothing(TwoUpdates(categories, maxEntries, w, p), categories, may)
  {
  }

  /** The intruder is written first, and then the entry that it is taken for. */
  lemma IntruderOverflows(categories: seq<string>, w: Entry, p: Entry) returns (moves: seq<Move>)
    requires Intrudes(w, p, categories)
    ensures |ListedKeys(RunMoves(TwoUpdates(categories, 1, w, p), moves).docs, categories)| == 2
  {
    assert IsDocumentOf(Written(Written(map[], w), p), KeyOf(p), iset{p}, p);
    DocumentShows(Written(Written(map[], w), p), categories, KeyOf(p), iset{p}, p);
    OverflowPair(categories, w, p);
    moves := TwoUpdatesRun(categories, 1, w, p);
  }

  /** Whatever the limit is, it holds in every run of any tasks from an empty store exactly when no entry that may be
      written is read back under the category and slug of another that may be written. */
  lemma LimitHoldsExact(categories: seq<string>, may: iset<Entry>)
    ensures LimitHolds(categories, may) <==> NoIntruder(may, categories)
  {
    if NoIntruder(may, categories) {
      forall s, moves | FromNothing(s, categories, may)
        ensures |ListedKeys(RunMoves(s, moves).docs, categories)| <= s.maxEntries
      {
        assert ListedKeys(s.docs, categories) == {};
        MovesStay(s, moves, may);
      }
    } else {
      var w, p :| w in may && p in may && Intrudes(w, p, categories);
      var moves := IntruderOverflows(categories, w, p);
      UpdatesFromNothing(categories, 1, w, p, may);
      assert FromNothing(TwoUpdates(categories, 1, w, p), categories, may);
    }
  }

  // ---------------------------------------------------------------- the index

  ghost predicate NoClashIn(may: iset<Entry>, categories: seq<string>) {
    forall w, p :: w in may && p in may ==> !Clashes(w, p, categories)
  }

  /** Whenever the lock is free after a write, the index is the one built from the documents listed in this order. */
  ghost predicate IndexedAs(s: Store, files: seq<Key>) {
    s.holder.None? && s.date.Some? && Listing(s.docs, files) ==>
      s.index == Some(IndexText(s.docs, s.categories, files, s.date.value))
  }

  /** It is the right one for every order and in every run. */
  ghost predicate IndexHolds(categories: seq<string>, may: iset<Entry>) {
    forall s, moves, files :: FromNothing(s, categories, may) ==> IndexedAs(RunMoves(s, moves), files)
  }

  lemma DocumentsDoNotClash(docs: Docs, categories: seq<string>, may: iset<Entry>)
    requires WrittenFrom(docs, may) && NoClashIn(may, categories)
    ensures NoClash(docs, categories, Line)
  {
    forall k, l | IsListed(docs, categories, k) && IsListed(docs, categories, l) && Tied(docs, k, l)
      ensures Line(EntryAt(docs, k).value) == Line(EntryAt(docs, l).value)
    {
      var w :| IsDocumentOf(docs, k, may, w);
      var p :| IsDocumentOf(docs, l, may, p);
      DocumentShows(docs, categories, k, may, w);
      DocumentShows(docs, categories, l, may, p);
      assert !Clashes(w, p, categories);
    }
  }

  lemma RunIndexed(s: Store, moves: seq<Move>, files: seq<Key>, categories: seq<string>, may: iset<Entry>)
    requires FromNothing(s, categories, may) && NoClashIn(may, categories)
    ensures IndexedAs(RunMoves(s, moves), files)
  {
    var n := RunMoves(s, moves);
    MovesStay(s, moves, may);
    IndexIsCurrent(s, moves);
    if n.holder.None? && n.date.Some? && Listing(n.docs, files) {
      var f :| Listing(n.docs, f) && n.index == Some(IndexText(n.docs, categories, f, n.date.value));
      DocumentsDoNotClash(n.docs, categories, may);
      IndexFixedExact(n.docs, categories, n.date.value);
    }
  }

  lemma ClashingDocs(categories: seq<string>, w: Entry, p: Entry)
    requires Clashes(w, p, categories)
    ensures !NoClash(Written(Written(map[], w), p), categories, Line)
  {
    var docs, k, l := Written(Written(map[], w), p), KeyOf(w), KeyOf(p);
    assert IsDocumentOf(docs, k, iset{w, p}, w) && IsDocumentOf(docs, l, iset{w, p}, p);
    DocumentShows(docs, categories, k, iset{w, p}, w);
    DocumentShows(docs, categories, l, iset{w, p}, p);
    assert Tied(docs, k, l);
  }

  /** Both are let in by a limit that is large enough. */
  lemma BothFit(categories: seq<string>, w: Entry, p: Entry) returns (maxEntries: nat)
    requires KeyOf(w) != KeyOf(p) && w.category in categories && p.category in categories
    ensures BothAllowed(categories, maxEntries, w, p)
  {
    TwoWritten(w, p);
    EmptyScan(categories);
    maxEntries := |Scan(Written(map[], w), categories, [KeyOf(w)])| + 1;
  }

  lemma SomeOrderDiffers(docs: Docs, categories: seq<string>, today: string, index: Option<string>)
    returns (files: seq<Key>)
    requires !NoClash(docs, categories, Line)
    ensures Listing(docs, files) && index != Some(IndexText(docs, categories, files, today))
  {
    IndexFixedExact(docs, categories, today);
    var f, g :| Listing(docs, f) && Listing(docs, g)
      && IndexText(docs, categories, f, today) != IndexText(docs, categories, g, today);
    files := if index == Some(IndexText(docs, categories, f, today)) then g else f;
  }

  /** After both are written the index is wrong for some order of the listing. */
  lemma ClashMisleads(categories: seq<string>, w: Entry, p: Entry)
    returns (maxEntries: nat, moves: seq<Move>, files: seq<Key>)
    requires Clashes(w, p, categories)
    ensures !IndexedAs(RunMoves(TwoUpdates(categories, maxEntries, w, p), moves), files)
  {
    maxEntries := BothFit(categories, w, p);
    moves := TwoUpdatesRun(categories, maxEntries, w, p);
    var n := RunMoves(TwoUpdates(categories, maxEntries, w, p), moves);
    ClashingDocs(categories, w, p);
    files := SomeOrderDiffers(n.docs, categories, [], n.index);
  }

  /** In every run of any tasks from an empty store the index is right for every order of the listing exactly when no
      two entries that may be written are read back with one category, slug and date and different lines. */
  lemma IndexHoldsExact(categories: seq<string>, may: iset<Entry>)
    ensures IndexHolds(categories, may) <==> NoClashIn(may, categories)
  {
    if NoClashIn(may, categories) {
      forall s, moves, files | FromNothing(s, categories, may) ensures IndexedAs(RunMoves(s, moves), files) {
        RunIndexed(s, moves, files, categories, may);
      }
    } else {
      var w, p :| w in may && p in may && Clashes(w, p, categories);
      var maxEntries, moves, files := ClashMisleads(categories, w, p);
      UpdatesFromNothing(categories, maxEntries, w, p, may);
      assert FromNothing(TwoUpdates(categories, maxEntries, w, p), categories, may);
    }
  }
}
