/** Entry counts and the guardrails. */
module MemoryLimits {
  import opened Ordering
  import opened Folds
  import opened StableSort
  import opened MemoryDocument
  import opened MemoryIndex
  import opened MemoryListing

  // ---------------------------------------------------------------- how many entries there are

  /** The documents that the scan turns into entries. */
  function ListedKeys(docs: Docs, categories: seq<string>): set<Key> {
    set k | k in docs && IsListed(docs, categories, k)
  }

  function Total(entries: seq<Entry>, categories: seq<string>): nat {
    if categories == [] then 0 else |InCategory(entries, categories[0])| + Total(entries, categories[1..])
  }

  /** How often a category stands in the list. */
  function Times(categories: seq<string>, c: string): (n: nat)
    ensures n > 0 <==> c in categories
  {
    if categories == [] then 0 else Times(categories[1..], c) + if categories[0] == c then 1 else 0
  }

  lemma {:induction false} SortedTotal(entries: seq<Entry>, categories: seq<string>)
    ensures |SortEntries(entries, categories)| == Total(entries, categories)
  {
    if categories != [] {
      var items := InCategory(entries, categories[0]);
      SortMembers(SlugLe, items);
      SortMembers(LaterFirst, SortBy(SlugLe, items));
      SortedTotal(entries, categories[1..]);
      assert SortEntries(entries, categories)
          == SortCategory(entries, categories[0]) + SortEntries(entries, categories[1..]);
    }
  }

  lemma {:induction false} TotalCons(e: Entry, entries: seq<Entry>, categories: seq<string>)
    ensures Total([e] + entries, categories) == Total(entries, categories) + Times(categories, e.category)
  {
    if categories != [] {
      TotalCons(e, entries, categories[1..]);
      assert ([e] + entries)[1..] == entries;
    }
  }

  lemma {:induction false} TotalNone(categories: seq<string>)
    ensures Total([], categories) == 0
  {
    if categories != [] {
      TotalNone(categories[1..]);
    }
  }

  function ListedIn(docs: Docs, categories: seq<string>, files: seq<Key>): set<Key> {
    set k | k in files && IsListed(docs, categories, k)
  }

  lemma ListedNext(docs: Docs, categories: seq<string>, files: seq<Key>)
    requires NoRepeats(files) && files != []
    ensures |ListedIn(docs, categories, files)|
         == |ListedIn(docs, categories, files[1..])| + if IsListed(docs, categories, files[0]) then 1 else 0
  {
    var k, s := files[0], ListedIn(docs, categories, files[1..]);
    assert files == [k] + files[1..] && k !in files[1..];
    assert ListedIn(docs, categories, files) == if IsListed(docs, categories, k) then s + {k} else s;
  }

  /** How often the scan has the entry of a document. */
  function Copies(docs: Docs, categories: seq<string>, k: Key): nat {
    if IsListed(docs, categories, k) then Times(categories, EntryAt(docs, k).value.category) else 0
  }

  lemma TotalNext(docs: Docs, categories: seq<string>, files: seq<Key>)
    requires files != []
    ensures Total(Entries(docs, categories, files), categories)
         == Total(Entries(docs, categories, files[1..]), categories) + Copies(docs, categories, files[0])
  {
    var k, more := files[0], Entries(docs, categories, files[1..]);
    assert Entries(docs, categories, files) == Found(docs, categories, k) + more;
    if Found(docs, categories, k) != [] {
      TotalCons(EntryAt(docs, k).value, more, categories);
    } else {
      assert [] + more == more;
    }
  }

  /** No listed document claims a category that the list repeats. */
  ghost predicate OnceEach(docs: Docs, categories: seq<string>, files: seq<Key>) {
    forall k :: k in files && IsListed(docs, categories, k) ==> Copies(docs, categories, k) == 1
  }

  lemma {:induction false} TotalListed(docs: Docs, categories: seq<string>, files: seq<Key>)
    requires NoRepeats(files)
    ensures Total(Entries(docs, categories, files), categories) >= |ListedIn(docs, categories, files)|
    ensures Total(Entries(docs, categories, files), categories) == |ListedIn(docs, categories, files)|
       <==> OnceEach(docs, categories, files)
  {
    if files == [] {
      TotalNone(categories);
    } else {
      TotalListed(docs, categories, files[1..]);
      ListedNext(docs, categories, files);
      TotalNext(docs, categories, files);
      assert files == [files[0]] + files[1..];
    }
  }

  /** The scan has at least one entry for each listed document, and exactly one for each exactly when none claims a
      category that the list repeats. */
  lemma ScanCount(docs: Docs, categories: seq<string>, files: seq<Key>)
    requires Listing(docs, files)
    ensures |Scan(docs, categories, files)| >= |ListedKeys(docs, categories)|
    ensures |Scan(docs, categories, files)| == |ListedKeys(docs, categories)|
       <==> forall k :: IsListed(docs, categories, k) ==> Times(categories, EntryAt(docs, k).value.category) == 1
  {
    SortedTotal(Entries(docs, categories, files), categories);
    TotalListed(docs, categories, files);
    assert ListedKeys(docs, categories) == ListedIn(docs, categories, files);
  }

  lemma {:induction false} TimesOnce(categories: seq<string>, c: string)
    requires NoRepeats(categories)
    ensures Times(categories, c) <= 1
  {
    if categories != [] {
      TimesOnce(categories[1..], c);
      assert categories == [categories[0]] + categories[1..];
    }
  }

  // ---------------------------------------------------------------- the guardrails

  /** A listed document that claims the category and the slug of an entry. */
  predicate Claims(docs: Docs, categories: seq<string>, k: Key, e: Entry) {
    IsListed(docs, categories, k) && EntryAt(docs, k).value.category == e.category && k.1 == e.slug
  }

  lemma HasEntryExact(docs: Docs, categories: seq<string>, files: seq<Key>, e: Entry)
    requires Listing(docs, files)
    ensures HasEntry(Scan(docs, categories, files), e) <==> exists k :: Claims(docs, categories, k, e)
  {
    var scan := Scan(docs, categories, files);
    if HasEntry(scan, e) {
      var i :| 0 <= i < |scan| && scan[i].category == e.category && scan[i].slug == e.slug;
      ScanExact(docs, categories, files, scan[i]);
      var k :| k in files && IsListed(docs, categories, k) && EntryAt(docs, k).value == scan[i];
      assert Claims(docs, categories, k, e);
    }
    if k :| Claims(docs, categories, k, e) {
      var x := EntryAt(docs, k).value;
      ScanExact(docs, categories, files, x);
      assert x in scan;
      var i :| 0 <= i < |scan| && scan[i] == x;
      assert scan[i].category == e.category && scan[i].slug == e.slug;
    }
  }

  /** What writing an entry does to the listed documents: it touches no other than its own. */
  lemma WrittenListed(docs: Docs, categories: seq<string>, e: Entry)
    ensures var w, k := Written(docs, e), KeyOf(e);
      ListedKeys(w, categories)
      == ListedKeys(docs, categories) - {k} + if IsListed(w, categories, k) then {k} else {}
  {
    var w, k := Written(docs, e), KeyOf(e);
    forall l | l != k ensures l in ListedKeys(w, categories) <==> l in ListedKeys(docs, categories) {
      if l in docs {
        assert EntryAt(w, l) == EntryAt(docs, l);
      }
    }
  }

  /** Whatever entry is written: the guardrail lets the number of listed documents pass the limit exactly when it was
      at the limit, the entry's document was not listed and now is, and some document claims its category and slug. */
  lemma OverflowExact(docs: Docs, categories: seq<string>, files: seq<Key>, maxEntries: nat, e: Entry)
    requires Listing(docs, files) && |ListedKeys(docs, categories)| <= maxEntries
    ensures (Allowed(docs, categories, files, maxEntries, e, false)
             && |ListedKeys(Written(docs, e), categories)| > maxEntries)
       <==> (&& |ListedKeys(docs, categories)| == maxEntries && KeyOf(e) !in ListedKeys(docs, categories)
             && IsListed(Written(docs, e), categories, KeyOf(e))
             && exists k :: Claims(docs, categories, k, e))
  {
    ScanCount(docs, categories, files);
    HasEntryExact(docs, categories, files, e);
    WrittenListed(docs, categories, e);
  }

  /** Every listed document claims the category of the directory it is in. */
  ghost predicate Labelled(docs: Docs, categories: seq<string>) {
    forall k :: IsListed(docs, categories, k) ==> EntryAt(docs, k).value.category == k.0
  }

  /** What is written for the entry is not read as an entry of another listed category. */
  predicate KeepsLabel(e: Entry, categories: seq<string>) {
    var parsed := Parse(Serialize(e));
    e.slug == INDEX_SLUG || e.category !in categories || parsed.None? || parsed.value.category !in categories
    || parsed.value.category == e.category
  }

  /** Writing into labelled documents leaves them labelled exactly when the entry keeps its label. */
  lemma WrittenLabelledExact(docs: Docs, categories: seq<string>, e: Entry)
    requires Labelled(docs, categories)
    ensures Labelled(Written(docs, e), categories) <==> KeepsLabel(e, categories)
  {
    var w, k := Written(docs, e), KeyOf(e);
    assert IsListed(w, categories, k) <==>
      (&& e.slug != INDEX_SLUG && e.category in categories && Parse(Serialize(e)).Some?
       && Parse(Serialize(e)).value.category in categories);
    forall l | l != k && IsListed(w, categories, l) ensures EntryAt(w, l).value.category == l.0 {
      assert EntryAt(w, l) == EntryAt(docs, l);
      assert IsListed(docs, categories, l);
    }
  }

  /** A storable entry keeps its label; one whose summary holds another listed category's field does not. */
  lemma LabelExamples(e: Entry, c: string, categories: seq<string>)
    requires Storable(e)
    ensures KeepsLabel(e, categories)
    ensures (&& e.summary != [] && e.slug != INDEX_SLUG && e.category in categories
             && ValueOk(c) && c in categories && c != e.category)
            ==> !KeepsLabel(Injected(e, c), categories)
  {
    WrittenIsReadBack(e);
    if e.summary != [] && ValueOk(c) {
      SummaryRelabels(e, c);
    }
  }

  /** In labelled documents the limit holds, whatever entry is written. */
  lemma LimitKept(docs: Docs, categories: seq<string>, files: seq<Key>, maxEntries: nat, e: Entry, tooLarge: bool)
    requires Listing(docs, files) && Labelled(docs, categories) && |ListedKeys(docs, categories)| <= maxEntries
    requires Allowed(docs, categories, files, maxEntries, e, tooLarge)
    ensures |ListedKeys(Written(docs, e), categories)| <= maxEntries
  {
    OverflowExact(docs, categories, files, maxEntries, e);
    assert forall k :: Claims(docs, categories, k, e) ==> k == KeyOf(e);
  }

  /** A store whose one document claims another entry's category and slug: that entry is let in beside it. */
  lemma OverflowFrom(docs: Docs, categories: seq<string>, k: Key, p: Entry)
    requires IsListed(Written(docs, p), categories, KeyOf(p)) && k.0 != p.category && k.1 == p.slug
    requires docs.Keys == {k} && k.0 in categories
    requires EntryAt(docs, k).Some? && EntryAt(docs, k).value.category == p.category
    ensures Listing(docs, [k]) && ListedKeys(docs, categories) == {k}
    ensures Allowed(docs, categories, [k], 1, p, false)
    ensures ListedKeys(Written(docs, p), categories) == {k, KeyOf(p)} && |{k, KeyOf(p)}| == 2
  {
    assert Claims(docs, categories, k, p);
    assert ListedKeys(docs, categories) == {k};
    OverflowExact(docs, categories, [k], 1, p);
    WrittenListed(docs, categories, p);
  }

  /** A document in the wrong directory lets a store of one entry become a store of two. */
  lemma MislabelledOverflows(p: Entry, dir: string)
    requires Storable(p) && p.slug != INDEX_SLUG && dir != p.category
    ensures var docs, cats := map[(dir, p.slug) := Serialize(p)], [dir, p.category];
      && Listing(docs, [(dir, p.slug)]) && |ListedKeys(docs, cats)| == 1
      && Allowed(docs, cats, [(dir, p.slug)], 1, p, false) && |ListedKeys(Written(docs, p), cats)| == 2
  {
    var docs, cats := map[(dir, p.slug) := Serialize(p)], [dir, p.category];
    FoundStored(docs, cats, (dir, p.slug), p);
    FoundStored(Written(docs, p), cats, KeyOf(p), p);
    OverflowFrom(docs, cats, (dir, p.slug), p);
  }

  lemma {:induction false} EmptyScan(categories: seq<string>)
    ensures Scan(map[], categories, []) == []
  {
    SortedTotal([], categories);
    TotalNone(categories);
  }

  /** One document of an empty store that claims another category than its directory's. */
  lemma InjectedAlone(e: Entry, c: string, categories: seq<string>)
    requires Storable(e) && e.summary != [] && e.slug != INDEX_SLUG && ValueOk(c)
    requires e.category in categories
    ensures var docs := Written(map[], Injected(e, c));
      && docs.Keys == {KeyOf(e)} && EntryAt(docs, KeyOf(e)) == Some(e.(category := c))
  {
    SummaryRelabels(e, c);
  }

  /** An empty store lets both entries in, one after the other. */
  ghost predicate BothAllowed(categories: seq<string>, maxEntries: nat, w: Entry, p: Entry) {
    var docs := Written(map[], w);
    && Listing(map[], []) && Allowed(map[], categories, [], maxEntries, w, false)
    && Listing(docs, [KeyOf(w)]) && Allowed(docs, categories, [KeyOf(w)], maxEntries, p, false)
    && Listing(Written(docs, p), [KeyOf(w), KeyOf(p)])
  }

  lemma TwoWritten(w: Entry, p: Entry)
    requires KeyOf(w) != KeyOf(p)
    ensures Written(map[], w).Keys == {KeyOf(w)} && Listing(map[], []) && Listing(Written(map[], w), [KeyOf(w)])
    ensures Listing(Written(Written(map[], w), p), [KeyOf(w), KeyOf(p)])
  {
  }

  /** The first entry let in claims the category and slug of the second, which is then let in beside it. */
  lemma OverflowPair(categories: seq<string>, w: Entry, p: Entry)
    requires w.slug == p.slug && w.category != p.category && w.category in categories
    requires IsListed(Written(Written(map[], w), p), categories, KeyOf(p))
    requires EntryAt(Written(map[], w), KeyOf(w)).Some?
    requires EntryAt(Written(map[], w), KeyOf(w)).value.category == p.category
    ensures BothAllowed(categories, 1, w, p) && |ListedKeys(Written(Written(map[], w), p), categories)| == 2
  {
    TwoWritten(w, p);
    EmptyScan(categories);
    OverflowFrom(Written(map[], w), categories, KeyOf(w), p);
  }

  /** Two updates of an empty store with a limit of one: the first, with a summary that holds a separator and the
      second's category field, is read as an entry of that category, and the second is let in beside it. */
  lemma UpdatesOverflow(e: Entry, p: Entry, categories: seq<string>)
    requires Storable(e) && e.summary != [] && Storable(p) && e.slug == p.slug != INDEX_SLUG
    requires e.category != p.category && e.category in categories && p.category in categories
    ensures var w := Injected(e, p.category);
      BothAllowed(categories, 1, w, p) && |ListedKeys(Written(Written(map[], w), p), categories)| == 2
  {
    InjectedAlone(e, p.category, categories);
    FoundStored(Written(Written(map[], Injected(e, p.category)), p), categories, KeyOf(p), p);
    OverflowPair(categories, Injected(e, p.category), p);
  }

  /** Labelled documents do not clash, so neither scan nor index depends on the order of the listing. */
  lemma ListingIrrelevant(docs: Docs, categories: seq<string>, f: seq<Key>, g: seq<Key>, today: string)
    requires Listing(docs, f) && Listing(docs, g) && Labelled(docs, categories)
    ensures Scan(docs, categories, f) == Scan(docs, categories, g)
    ensures IndexText(docs, categories, f, today) == IndexText(docs, categories, g, today)
  {
    assert forall k, l :: IsListed(docs, categories, k) && IsListed(docs, categories, l) && Tied(docs, k, l) ==> k == l;
    ScanFixedExact(docs, categories);
    IndexFixedExact(docs, categories, today);
  }

  /** Two documents that claim one category, slug and date with different lines: the index depends on the listing. */
  lemma MislabelledOrderMatters(x: Entry, y: Entry, dir: string, today: string)
    requires Storable(x) && Storable(y) && x.slug == y.slug != INDEX_SLUG && x.updated == y.updated
    requires x.category == y.category != dir && Line(x) != Line(y)
    ensures var docs := map[KeyOf(x) := Serialize(x), (dir, y.slug) := Serialize(y)];
      !ScanFixed(docs, [x.category, dir]) && !IndexFixed(docs, [x.category, dir], today)
  {
    var k, l, cats := KeyOf(x), (dir, y.slug), [x.category, dir];
    var docs := map[k := Serialize(x), l := Serialize(y)];
    FoundStored(docs, cats, k, x);
    FoundStored(docs, cats, l, y);
    ScanFixedExact(docs, cats);
    IndexFixedExact(docs, cats, today);
    assert IsListed(docs, cats, k) && IsListed(docs, cats, l) && Tied(docs, k, l);
  }

  /** An update is let through exactly when its category is listed, the bytes are within their limit, and a listed
      document claims its category and slug or the scan is below the limit. */
  lemma AllowedExact(docs: Docs, categories: seq<string>, files: seq<Key>, maxEntries: nat, e: Entry, tooLarge: bool)
    requires Listing(docs, files)
    ensures Allowed(docs, categories, files, maxEntries, e, tooLarge) <==>
      && e.category in categories && !tooLarge
      && ((exists k :: IsListed(docs, categories, k) && EntryAt(docs, k).value.category == e.category && k.1 == e.slug)
          || |Scan(docs, categories, files)| < maxEntries)
  {
    HasEntryExact(docs, categories, files, e);
    if k :| Claims(docs, categories, k, e) {
      assert IsListed(docs, categories, k) && EntryAt(docs, k).value.category == e.category && k.1 == e.slug;
    }
    if k :| IsListed(docs, categories, k) && EntryAt(docs, k).value.category == e.category && k.1 == e.slug {
      assert Claims(docs, categories, k, e);
    }
  }
}
