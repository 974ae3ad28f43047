/** Whether scan and index depend on the order in which directories are listed. */
module MemoryListing {
  import opened Ordering
  import opened Folds
  import opened StableSort
  import Text
  import opened MemoryDocument
  import opened MemoryIndex

  // ---------------------------------------------------------------- whether the order of the listing matters

  /** Two documents that claim the same category, slug and date: the sorts do not tell them apart. */
  predicate Tied(docs: Docs, k: Key, l: Key)
    requires k in docs && l in docs && EntryAt(docs, k).Some? && EntryAt(docs, l).Some?
  {
    var a, b := EntryAt(docs, k).value, EntryAt(docs, l).value;
    a.category == b.category && a.slug == b.slug && a.updated == b.updated
  }

  /** Tied documents have the same to show, where `shown` says what is shown of an entry. */
  ghost predicate NoClash<V>(docs: Docs, categories: seq<string>, shown: Entry -> V) {
    forall k, l :: IsListed(docs, categories, k) && IsListed(docs, categories, l) && Tied(docs, k, l)
      ==> shown(EntryAt(docs, k).value) == shown(EntryAt(docs, l).value)
  }

  /** What is shown of an entry, with what the sorts look at. */
  function Sight<V>(shown: Entry -> V, e: Entry): (string, string, V) {
    (e.updated, e.slug, shown(e))
  }

  predicate SightBefore<V>(x: (string, string, V), y: (string, string, V)) {
    Less(y.0, x.0) || (x.0 == y.0 && Le(x.1, y.1))
  }

  lemma {:induction false} InCategoryFlat(entries: seq<Entry>, category: string, f: Entry -> seq<Entry>)
    requires forall e :: f(e) == if e.category == category then [e] else []
    ensures InCategory(entries, category) == Flat(f, entries)
  {
    if entries != [] {
      InCategoryFlat(entries[1..], category, f);
      assert [] + InCategory(entries[1..], category) == InCategory(entries[1..], category);
    }
  }

  lemma {:induction false} CountOne<T>(xs: seq<T>, x: T)
    requires NoRepeats(xs)
    ensures multiset(xs)[x] == if x in xs then 1 else 0
  {
    if xs != [] {
      CountOne(xs[1..], x);
      assert xs == [xs[0]] + xs[1..];
    }
  }

  lemma {:induction false} SameListings(f: seq<Key>, g: seq<Key>)
    requires NoRepeats(f) && NoRepeats(g) && forall k :: k in f <==> k in g
    ensures multiset(f) == multiset(g)
  {
    forall k ensures multiset(f)[k] == multiset(g)[k] {
      CountOne(f, k);
      CountOne(g, k);
    }
  }

  /** A category of the same entries is sorted to the same entries. */
  lemma SameEntries(x: seq<Entry>, y: seq<Entry>, c: string)
    requires multiset(x) == multiset(y)
    ensures multiset(SortCategory(x, c)) == multiset(SortCategory(y, c))
  {
    var only := (e: Entry) => if e.category == c then [e] else [];
    FlatMultiset(only, x, y);
    InCategoryFlat(x, c, only);
    InCategoryFlat(y, c, only);
    SortItemsExact(InCategory(x, c));
    SortItemsExact(InCategory(y, c));
  }

  predicate IsSource(docs: Docs, categories: seq<string>, k: Key, e: Entry) {
    k in docs && k.0 in categories && EntryAt(docs, k) == Some(e)
  }

  /** The entries are those of documents in listed directories. */
  ghost predicate FromDocs(docs: Docs, categories: seq<string>, entries: seq<Entry>) {
    forall e :: e in entries ==> exists k :: IsSource(docs, categories, k, e)
  }

  /** What is shown of a sorted category, in the order of the sorts. */
  lemma SightsOrdered<V(!new)>(shown: Entry -> V, entries: seq<Entry>, c: string)
    ensures Pairwise(SightBefore<V>, Map(e => Sight(shown, e), SortCategory(entries, c)))
  {
    SortItemsExact(InCategory(entries, c));
  }

  /** Without a clash, sights that the order does not tell apart are the same. */
  lemma SightsTell<V(!new)>(docs: Docs, categories: seq<string>, entries: seq<Entry>, c: string, shown: Entry -> V,
                            a: Entry, b: Entry)
    requires FromDocs(docs, categories, entries) && NoClash(docs, categories, shown) && c in categories
    requires a in SortCategory(entries, c) && b in SortCategory(entries, c)
    requires SightBefore(Sight(shown, a), Sight(shown, b)) && SightBefore(Sight(shown, b), Sight(shown, a))
    ensures Sight(shown, a) == Sight(shown, b)
  {
    if Le(a.updated, b.updated) && Le(b.updated, a.updated) { LeAntisymmetric(a.updated, b.updated); }
    if Le(a.slug, b.slug) && Le(b.slug, a.slug) { LeAntisymmetric(a.slug, b.slug); }
    SortedMember(entries, c, a);
    SortedMember(entries, c, b);
    var k :| IsSource(docs, categories, k, a);
    var l :| IsSource(docs, categories, l, b);
    assert IsListed(docs, categories, k) && IsListed(docs, categories, l) && Tied(docs, k, l);
  }

  /** Without a clash a category shows the same in whatever order the entries come. */
  lemma SameShown<V(!new)>(docs: Docs, categories: seq<string>, x: seq<Entry>, y: seq<Entry>, c: string,
                           shown: Entry -> V)
    requires FromDocs(docs, categories, x) && multiset(x) == multiset(y)
    requires NoClash(docs, categories, shown) && c in categories
    ensures Map(shown, SortCategory(x, c)) == Map(shown, SortCategory(y, c))
  {
    var sight := e => Sight(shown, e);
    var a, b := SortCategory(x, c), SortCategory(y, c);
    SameEntries(x, y, c);
    MapMultiset(sight, a, b);
    SightsOrdered(shown, x, c);
    SightsOrdered(shown, y, c);
    forall u, v | u in Map(sight, a) && v in Map(sight, a) && SightBefore(u, v) && SightBefore(v, u) ensures u == v {
      var i :| 0 <= i < |a| && Map(sight, a)[i] == u;
      var j :| 0 <= j < |a| && Map(sight, a)[j] == v;
      SightsTell(docs, categories, x, c, shown, a[i], a[j]);
    }
    SortedUnique(SightBefore<V>, Map(sight, a), Map(sight, b));
    forall i | 0 <= i < |a| ensures Map(shown, a)[i] == Map(shown, b)[i] {
      assert Map(sight, a)[i] == Map(sight, b)[i];
    }
  }

  /** However the files are listed, the same entries are found. */
  lemma SameFound(docs: Docs, categories: seq<string>, f: seq<Key>, g: seq<Key>)
    requires Listing(docs, f) && Listing(docs, g)
    ensures multiset(Entries(docs, categories, f)) == multiset(Entries(docs, categories, g))
    ensures FromDocs(docs, categories, Entries(docs, categories, f))
  {
    var found := (k: Key) => Found(docs, categories, k);
    SameListings(f, g);
    FlatMultiset(found, f, g);
    assert Entries(docs, categories, f) == Flat(found, f) && Entries(docs, categories, g) == Flat(found, g);
    forall e | e in Entries(docs, categories, f) ensures exists k :: IsSource(docs, categories, k, e) {
      EntriesExact(docs, categories, f, e);
      var k :| k in f && e in Found(docs, categories, k);
      assert IsSource(docs, categories, k, e);
    }
  }

  lemma {:induction false} Enumerate(s: set<Key>) returns (xs: seq<Key>)
    ensures NoRepeats(xs) && forall k :: k in xs <==> k in s
    decreases |s|
  {
    if s == {} {
      xs := [];
    } else {
      var k :| k in s;
      var rest := Enumerate(s - {k});
      xs := [k] + rest;
    }
  }

  /** The files with two given ones listed first, in either order. */
  lemma TwoFirst(docs: Docs, k: Key, l: Key) returns (rest: seq<Key>)
    requires k in docs && l in docs && k != l
    ensures Listing(docs, [k, l] + rest) && Listing(docs, [l, k] + rest)
  {
    rest := Enumerate(docs.Keys - {k, l});
    assert forall x :: x in [k, l] + rest <==> x == k || x == l || x in rest;
    assert forall x :: x in [l, k] + rest <==> x == k || x == l || x in rest;
  }

  lemma TwoEntries(docs: Docs, categories: seq<string>, k: Key, l: Key, rest: seq<Key>)
    requires IsListed(docs, categories, k) && IsListed(docs, categories, l)
    ensures Entries(docs, categories, [k, l] + rest)
         == [EntryAt(docs, k).value, EntryAt(docs, l).value] + Entries(docs, categories, rest)
  {
    var found := (x: Key) => Found(docs, categories, x);
    var all := [k, l] + rest;
    assert all[1..] == [l] + rest && ([l] + rest)[1..] == rest;
    assert Flat(found, all) == found(k) + (found(l) + Flat(found, rest));
    assert found(k) == [EntryAt(docs, k).value] && found(l) == [EntryAt(docs, l).value];
  }

  lemma TwoInCategory(a: Entry, b: Entry, rest: seq<Entry>, c: string)
    requires a.category == b.category
    ensures InCategory([a, b] + rest, c)
         == if a.category == c then [a, b] + InCategory(rest, c) else InCategory(rest, c)
  {
    var all := [a, b] + rest;
    assert all[1..] == [b] + rest && ([b] + rest)[1..] == rest;
  }

  lemma TiedInSorts(a: Entry, b: Entry)
    requires a.slug == b.slug && a.updated == b.updated
    ensures Tie(SlugLe, a, b) && Tie(LaterFirst, a, b)
  {
    LeReflexive(a.slug);
    LeReflexive(a.updated);
  }

  /** Two tied entries stay as they were found, next to each other; everything else is where it was. */
  lemma SwappedCategory(a: Entry, b: Entry, rest: seq<Entry>) returns (p: seq<Entry>, q: seq<Entry>)
    requires a.category == b.category && a.slug == b.slug && a.updated == b.updated
    ensures Swapped(SortCategory([a, b] + rest, a.category), SortCategory([b, a] + rest, a.category), a, b, p, q)
    ensures forall c :: c != a.category ==> SortCategory([a, b] + rest, c) == SortCategory([b, a] + rest, c)
  {
    var items := InCategory(rest, a.category);
    forall c: string ensures InCategory([a, b] + rest, c)
      == if a.category == c then [a, b] + InCategory(rest, c) else InCategory(rest, c)
    {
      TwoInCategory(a, b, rest, c);
    }
    forall c: string ensures InCategory([b, a] + rest, c)
      == if a.category == c then [b, a] + InCategory(rest, c) else InCategory(rest, c)
    {
      TwoInCategory(b, a, rest, c);
    }
    OrdersAreOrders();
    TiedInSorts(a, b);
    var s, t := [a, b] + items, [b, a] + items;
    assert Swapped(s, t, a, b, [], items);
    p, q := SortSwapped(SlugLe, s, t, a, b, [], items);
    p, q := SortSwapped(LaterFirst, SortBy(SlugLe, s), SortBy(SlugLe, t), a, b, p, q);
  }

  /** Two listings of a store that differ in the order of two tied documents, and what the sorts make of them. */
  lemma TwoListings(docs: Docs, categories: seq<string>, k: Key, l: Key)
    returns (f: seq<Key>, g: seq<Key>, p: seq<Entry>, q: seq<Entry>)
    requires IsListed(docs, categories, k) && IsListed(docs, categories, l) && Tied(docs, k, l) && k != l
    ensures Listing(docs, f) && Listing(docs, g)
    ensures var a, b := EntryAt(docs, k).value, EntryAt(docs, l).value;
      && Swapped(SortCategory(Entries(docs, categories, f), a.category),
                 SortCategory(Entries(docs, categories, g), a.category), a, b, p, q)
      && forall c :: c != a.category ==>
           SortCategory(Entries(docs, categories, f), c) == SortCategory(Entries(docs, categories, g), c)
  {
    var rest := TwoFirst(docs, k, l);
    f, g := [k, l] + rest, [l, k] + rest;
    TwoEntries(docs, categories, k, l, rest);
    TwoEntries(docs, categories, l, k, rest);
    p, q := SwappedCategory(EntryAt(docs, k).value, EntryAt(docs, l).value, Entries(docs, categories, rest));
  }

  /** Pieces of the same lengths can be told apart in what they are joined to. */
  lemma {:induction false} SamePieces<T, U>(f: T -> seq<U>, g: T -> seq<U>, xs: seq<T>, k: nat)
    requires (forall i :: 0 <= i < |xs| ==> |f(xs[i])| == |g(xs[i])|) && k < |xs| && Flat(f, xs) == Flat(g, xs)
    ensures f(xs[k]) == g(xs[k])
  {
    var a, b := Flat(f, xs), Flat(g, xs);
    assert f(xs[0]) == a[..|f(xs[0])|] && g(xs[0]) == b[..|g(xs[0])|];
    assert Flat(f, xs[1..]) == a[|f(xs[0])|..] && Flat(g, xs[1..]) == b[|g(xs[0])|..];
    if k > 0 {
      SamePieces(f, g, xs[1..], k - 1);
    }
  }

  ghost predicate ScanFixed(docs: Docs, categories: seq<string>) {
    forall f, g :: Listing(docs, f) && Listing(docs, g) ==> Scan(docs, categories, f) == Scan(docs, categories, g)
  }

  ghost predicate IndexFixed(docs: Docs, categories: seq<string>, today: string) {
    forall f, g :: Listing(docs, f) && Listing(docs, g) ==>
      IndexText(docs, categories, f, today) == IndexText(docs, categories, g, today)
  }

  /** All of an entry is shown. */
  function Whole(e: Entry): Entry {
    e
  }

  lemma {:induction false} FlatSame<T, U>(f: T -> seq<U>, g: T -> seq<U>, xs: seq<T>)
    requires forall k :: 0 <= k < |xs| ==> f(xs[k]) == g(xs[k])
    ensures Flat(f, xs) == Flat(g, xs)
  {
    if xs != [] {
      FlatSame(f, g, xs[1..]);
    }
  }

  lemma SameCategory(docs: Docs, categories: seq<string>, f: seq<Key>, g: seq<Key>, c: string)
    requires Listing(docs, f) && Listing(docs, g) && NoClash(docs, categories, Whole) && c in categories
    ensures SortCategory(Entries(docs, categories, f), c) == SortCategory(Entries(docs, categories, g), c)
  {
    var a, b := SortCategory(Entries(docs, categories, f), c), SortCategory(Entries(docs, categories, g), c);
    SameFound(docs, categories, f, g);
    SameShown(docs, categories, Entries(docs, categories, f), Entries(docs, categories, g), c, Whole);
    assert Map(Whole, a) == a && Map(Whole, b) == b;
  }

  lemma NoClashScan(docs: Docs, categories: seq<string>, f: seq<Key>, g: seq<Key>)
    requires Listing(docs, f) && Listing(docs, g) && NoClash(docs, categories, Whole)
    ensures Scan(docs, categories, f) == Scan(docs, categories, g)
  {
    var a, b := Entries(docs, categories, f), Entries(docs, categories, g);
    var s, t := (c: string) => SortCategory(a, c), (c: string) => SortCategory(b, c);
    forall i | 0 <= i < |categories| ensures s(categories[i]) == t(categories[i]) {
      SameCategory(docs, categories, f, g, categories[i]);
    }
    FlatSame(s, t, categories);
    assert Scan(docs, categories, f) == Flat(s, categories) && Scan(docs, categories, g) == Flat(t, categories);
  }

  lemma ClashScan(docs: Docs, categories: seq<string>, k: Key, l: Key)
    requires IsListed(docs, categories, k) && IsListed(docs, categories, l) && Tied(docs, k, l)
    requires EntryAt(docs, k) != EntryAt(docs, l)
    ensures !ScanFixed(docs, categories)
  {
    var f, g, p, q := TwoListings(docs, categories, k, l);
    var a, b := EntryAt(docs, k).value, EntryAt(docs, l).value;
    var x, y := Entries(docs, categories, f), Entries(docs, categories, g);
    var s, t := (c: string) => SortCategory(x, c), (c: string) => SortCategory(y, c);
    var i :| 0 <= i < |categories| && categories[i] == a.category;
    assert s(categories[i])[|p|] == a && t(categories[i])[|p|] == b;
    if Scan(docs, categories, f) == Scan(docs, categories, g) {
      assert Flat(s, categories) == Scan(docs, categories, f) == Scan(docs, categories, g) == Flat(t, categories);
      SamePieces(s, t, categories, i);
    }
  }

  /** The scan is the same for every order in which the directories may be listed exactly when no two listed documents
      claim one category, slug and date and differ in their entries. */
  lemma ScanFixedExact(docs: Docs, categories: seq<string>)
    ensures ScanFixed(docs, categories) <==> NoClash(docs, categories, Whole)
  {
    if NoClash(docs, categories, Whole) {
      forall f, g | Listing(docs, f) && Listing(docs, g)
        ensures Scan(docs, categories, f) == Scan(docs, categories, g)
      {
        NoClashScan(docs, categories, f, g);
      }
    } else {
      var k, l :| IsListed(docs, categories, k) && IsListed(docs, categories, l) && Tied(docs, k, l)
        && EntryAt(docs, k).value != EntryAt(docs, l).value;
      ClashScan(docs, categories, k, l);
    }
  }

  // ---------------------------------------------------------------- the text tells the lines apart

  function Newlines(t: string): nat {
    if t == [] then 0 else Newlines(t[1..]) + if t[0] == '\n' then 1 else 0
  }

  lemma {:induction false} NewlinesConcat(a: string, b: string)
    ensures Newlines(a + b) == Newlines(a) + Newlines(b)
  {
    if a == [] {
      assert a + b == b;
    } else {
      NewlinesConcat(a[1..], b);
      assert (a + b)[1..] == a[1..] + b;
    }
  }

  lemma {:induction false} NoNewlines(t: string)
    requires Text.OneLine(t)
    ensures Newlines(t) == 0
  {
    if t != [] {
      NoNewlines(t[1..]);
    }
  }

  lemma LongerLine(a: string, b: string)
    requires a + ['\n'] + b == b + ['\n'] + a && |a| < |b|
    ensures Newlines(a) < Newlines(b)
  {
    var all, rest := a + ['\n'] + b, b[|a|..];
    assert all[..|a|] == a && (b + ['\n'] + a)[..|a|] == b[..|a|];
    assert all[|a|] == '\n' && (b + ['\n'] + a)[|a|] == rest[0];
    assert b == b[..|a|] + rest;
    NewlinesConcat(b[..|a|], rest);
  }

  /** Two lines with as many newlines that can be put in either order are the same. */
  lemma LinesCommute(a: string, b: string)
    requires a + ['\n'] + b == b + ['\n'] + a && Newlines(a) == Newlines(b)
    ensures a == b
  {
    if |a| < |b| {
      LongerLine(a, b);
    } else if |b| < |a| {
      LongerLine(b, a);
    } else {
      assert (a + ['\n'] + b)[..|a|] == a && (b + ['\n'] + a)[..|a|] == b;
    }
  }

  function SummaryText(e: Entry): string {
    var summary := Text.Strip(e.summary);
    if summary != [] then summary else "(无摘要)"
  }

  function LineStart(e: Entry): string {
    "- [" + e.title + "]("
  }

  function LineEnd(e: Entry): string {
    ") — " + SummaryText(e)
  }

  lemma LineIsParts(e: Entry)
    ensures Line(e) == LineStart(e) + RelPath(e) + LineEnd(e)
  {
  }

  lemma StartIsOneLine(e: Entry)
    requires Text.OneLine(e.title)
    ensures Text.OneLine(LineStart(e))
  {
  }

  lemma EndIsOneLine(e: Entry)
    requires Text.OneLine(e.summary)
    ensures Text.OneLine(LineEnd(e))
  {
    Text.StripIsStripped(e.summary);
    var t := Text.Strip(e.summary);
    forall i | 0 <= i < |t| ensures !Text.IsBreak(t[i]) {
      assert t[i] in e.summary;
    }
  }

  /** The newlines of an entry's line are those of its path. */
  lemma LineNewlines(e: Entry)
    requires Text.OneLine(e.title) && Text.OneLine(e.summary)
    ensures Newlines(Line(e)) == Newlines(RelPath(e))
  {
    LineIsParts(e);
    StartIsOneLine(e);
    EndIsOneLine(e);
    NoNewlines(LineStart(e));
    NoNewlines(LineEnd(e));
    NewlinesConcat(LineStart(e), RelPath(e));
    NewlinesConcat(LineStart(e) + RelPath(e), LineEnd(e));
  }

  lemma TiedLinesCommute(a: Entry, b: Entry)
    requires Text.OneLine(a.title) && Text.OneLine(a.summary) && Text.OneLine(b.title) && Text.OneLine(b.summary)
    requires a.category == b.category && a.slug == b.slug
    requires Line(a) + ['\n'] + Line(b) == Line(b) + ['\n'] + Line(a)
    ensures Line(a) == Line(b)
  {
    LineNewlines(a);
    LineNewlines(b);
    LinesCommute(Line(a), Line(b));
  }

  lemma {:induction false} JoinConcat(a: seq<string>, b: seq<string>)
    requires a != [] && b != []
    ensures Text.Join(a + b) == Text.Join(a) + ['\n'] + Text.Join(b)
  {
    var all := a + b;
    assert all[1..] == a[1..] + b && all[0] == a[0];
    if |a| == 1 {
      assert all[1..] == b;
    } else {
      JoinConcat(a[1..], b);
      assert a[0] + ['\n'] + (Text.Join(a[1..]) + ['\n'] + Text.Join(b))
          == a[0] + ['\n'] + Text.Join(a[1..]) + ['\n'] + Text.Join(b);
    }
  }

  function Tail(q: seq<string>): string {
    if q == [] then [] else ['\n'] + Text.Join(q)
  }

  lemma JoinAround(p: seq<string>, x: seq<string>, q: seq<string>)
    requires p != [] && x != []
    ensures Text.Join(p + x + q) == Text.Join(p) + ['\n'] + Text.Join(x) + Tail(q)
  {
    JoinConcat(p, x);
    if q == [] {
      assert p + x + q == p + x;
    } else {
      JoinConcat(p + x, q);
    }
  }

  lemma {:induction false} LessBefore(h: string, x: string, y: string)
    requires Less(x, y)
    ensures Less(h + x, h + y)
  {
    if h == [] {
      assert h + x == x && h + y == y;
    } else {
      LessBefore(h[1..], x, y);
      assert (h + x)[1..] == h[1..] + x && (h + y)[1..] == h[1..] + y;
    }
  }

  lemma {:induction false} LessAfter(x: string, y: string, w: string)
    requires Less(x, y) && |x| == |y|
    ensures Less(x + w, y + w)
  {
    assert (x + w)[1..] == x[1..] + w && (y + w)[1..] == y[1..] + w;
    if x[0] == y[0] {
      assert x == [x[0]] + x[1..] && y == [y[0]] + y[1..];
      LessAfter(x[1..], y[1..], w);
    }
  }

  /** Sections of the same lengths can be told apart in the body. */
  lemma {:induction false} JoinSectionsTells(xs: seq<string>, ys: seq<string>)
    requires |xs| == |ys| && (forall i :: 0 <= i < |xs| ==> |xs[i]| == |ys[i]|)
    requires JoinSections(xs) == JoinSections(ys)
    ensures xs == ys
  {
    if |xs| > 1 {
      var a, b := JoinSections(xs), JoinSections(ys);
      assert xs[0] == a[..|xs[0]|] && ys[0] == b[..|ys[0]|];
      assert JoinSections(xs[1..]) == a[|xs[0]| + 2..] && JoinSections(ys[1..]) == b[|ys[0]| + 2..];
      JoinSectionsTells(xs[1..], ys[1..]);
      assert xs == [xs[0]] + xs[1..] && ys == [ys[0]] + ys[1..];
    }
  }

  lemma LinesSwapped(s: seq<Entry>, t: seq<Entry>, a: Entry, b: Entry, p: seq<Entry>, q: seq<Entry>)
    requires Swapped(s, t, a, b, p, q)
    ensures forall h: string :: [h] + Lines(s) == [h] + Lines(p) + [Line(a), Line(b)] + Lines(q)
    ensures forall h: string :: [h] + Lines(t) == [h] + Lines(p) + [Line(b), Line(a)] + Lines(q)
  {
  }

  /** Two lines joined. */
  function Both(a: Entry, b: Entry): string {
    Line(a) + ['\n'] + Line(b)
  }

  lemma SectionParts(c: string, s: seq<Entry>, h: seq<string>, a: Entry, b: Entry, w: seq<string>)
    requires h != [] && ["## " + Label(c) + "\n"] + Lines(s) == h + [Line(a), Line(b)] + w
    ensures SectionText(c, s) == Text.Join(h) + ['\n'] + (Both(a, b) + Tail(w))
  {
    JoinAround(h, [Line(a), Line(b)], w);
    assert [Line(a), Line(b)][1..] == [Line(b)];
    ConcatAssociates(Text.Join(h) + ['\n'], Both(a, b), Tail(w));
  }

  /** Exchanging two neighbours makes the section greater or less as it does their two lines. */
  lemma SectionMoves(c: string, s: seq<Entry>, t: seq<Entry>, a: Entry, b: Entry, p: seq<Entry>, q: seq<Entry>)
    requires Swapped(s, t, a, b, p, q) && Less(Both(a, b), Both(b, a))
    ensures |SectionText(c, s)| == |SectionText(c, t)| && Less(SectionText(c, s), SectionText(c, t))
  {
    var h := ["## " + Label(c) + "\n"] + Lines(p);
    LinesSwapped(s, t, a, b, p, q);
    SectionParts(c, s, h, a, b, Lines(q));
    SectionParts(c, t, h, b, a, Lines(q));
    LessAfter(Both(a, b), Both(b, a), Tail(Lines(q)));
    LessBefore(Text.Join(h) + ['\n'], Both(a, b) + Tail(Lines(q)), Both(b, a) + Tail(Lines(q)));
  }

  /** Any number of exchanges, all in the same direction. */
  lemma {:induction false} SectionChain(c: string, s: seq<Entry>, t: seq<Entry>, a: Entry, b: Entry, n: nat)
    requires Chain(s, t, a, b, n) && Less(Both(a, b), Both(b, a))
    ensures |SectionText(c, s)| == |SectionText(c, t)|
    ensures n > 0 ==> Less(SectionText(c, s), SectionText(c, t))
    decreases n
  {
    if n > 0 {
      var u, p, q :| Swapped(s, u, a, b, p, q) && Chain(u, t, a, b, n - 1);
      SectionMoves(c, s, u, a, b, p, q);
      SectionChain(c, u, t, a, b, n - 1);
      if n > 1 {
        LessTransitive(SectionText(c, s), SectionText(c, u), SectionText(c, t));
      }
    }
  }

  /** Every entry of the store has its title and its summary on one line. */
  lemma EntryOneLine(docs: Docs, k: Key)
    requires k in docs && EntryAt(docs, k).Some?
    ensures Text.OneLine(EntryAt(docs, k).value.title) && Text.OneLine(EntryAt(docs, k).value.summary)
  {
    ParsedIsStorable(docs[k]);
  }

  lemma BodyTells(x: seq<Entry>, y: seq<Entry>, categories: seq<string>, today: string)
    requires |Body(x, categories)| == |Body(y, categories)|
    ensures BuildIndex(x, categories, today) == BuildIndex(y, categories, today)
       <==> Body(x, categories) == Body(y, categories)
  {
    var a, b, h := Body(x, categories), Body(y, categories), Header(today);
    if a != [] {
      assert (h + "\n" + a + "\n")[|h| + 1..|h| + 1 + |a|] == a && (h + "\n" + b + "\n")[|h| + 1..|h| + 1 + |b|] == b;
    }
  }

  /** As many strings, of the same lengths. */
  ghost predicate SameShape(xs: seq<string>, ys: seq<string>) {
    |xs| == |ys| && forall i :: 0 <= i < |xs| ==> |xs[i]| == |ys[i]|
  }

  lemma {:induction false} SameShapes(f: string -> seq<string>, g: string -> seq<string>, cs: seq<string>)
    requires forall i :: 0 <= i < |cs| ==> SameShape(f(cs[i]), g(cs[i]))
    ensures SameShape(Flat(f, cs), Flat(g, cs))
  {
    if cs != [] {
      SameShapes(f, g, cs[1..]);
    }
  }

  lemma {:induction false} ShapeLength(xs: seq<string>, ys: seq<string>)
    requires SameShape(xs, ys)
    ensures |JoinSections(xs)| == |JoinSections(ys)|
  {
    if xs != [] {
      ShapeLength(xs[1..], ys[1..]);
    }
  }

  lemma {:induction false} InCategoryConcat(x: seq<Entry>, y: seq<Entry>, c: string)
    ensures InCategory(x + y, c) == InCategory(x, c) + InCategory(y, c)
  {
    if x == [] {
      assert x + y == y;
    } else {
      InCategoryConcat(x[1..], y, c);
      assert (x + y)[1..] == x[1..] + y && (x + y)[0] == x[0];
    }
  }

  lemma InCategoryAround(p: seq<Entry>, a: Entry, b: Entry, q: seq<Entry>, c: string)
    requires a.category == b.category
    ensures InCategory(p + [a, b] + q, c)
         == InCategory(p, c) + (if a.category == c then [a, b] else []) + InCategory(q, c)
  {
    var two := if a.category == c then [a, b] else [];
    TwoInCategory(a, b, q, c);
    assert [] + InCategory(q, c) == InCategory(q, c);
    ConcatAssociates(p, [a, b], q);
    InCategoryConcat(p, [a, b] + q, c);
    ConcatAssociates(InCategory(p, c), two, InCategory(q, c));
  }

  lemma SwappedInCategory(s: seq<Entry>, t: seq<Entry>, a: Entry, b: Entry, p: seq<Entry>, q: seq<Entry>, c: string)
    requires Swapped(s, t, a, b, p, q) && a.category == b.category
    ensures a.category == c ==>
      Swapped(InCategory(s, c), InCategory(t, c), a, b, InCategory(p, c), InCategory(q, c))
    ensures a.category != c ==> InCategory(s, c) == InCategory(t, c)
  {
    InCategoryAround(p, a, b, q, c);
    InCategoryAround(p, b, a, q, c);
  }

  lemma {:induction false} ChainInCategory(s: seq<Entry>, t: seq<Entry>, a: Entry, b: Entry, n: nat, c: string)
    requires Chain(s, t, a, b, n) && a.category == b.category
    ensures a.category == c ==> Chain(InCategory(s, c), InCategory(t, c), a, b, n)
    ensures a.category != c ==> InCategory(s, c) == InCategory(t, c)
    decreases n
  {
    if n > 0 {
      var u, p, q :| Swapped(s, u, a, b, p, q) && Chain(u, t, a, b, n - 1);
      SwappedInCategory(s, u, a, b, p, q, c);
      ChainInCategory(u, t, a, b, n - 1, c);
    }
  }

  lemma ChainSortCategory(s: seq<Entry>, t: seq<Entry>, a: Entry, b: Entry, n: nat, c: string)
    requires Chain(s, t, a, b, n) && a.category == b.category && a.slug == b.slug && a.updated == b.updated
    ensures a.category == c ==> Chain(SortCategory(s, c), SortCategory(t, c), a, b, n)
    ensures a.category != c ==> SortCategory(s, c) == SortCategory(t, c)
  {
    ChainInCategory(s, t, a, b, n, c);
    if a.category == c {
      OrdersAreOrders();
      TiedInSorts(a, b);
      ChainSort(SlugLe, InCategory(s, c), InCategory(t, c), a, b, n);
      ChainSort(LaterFirst, SortBy(SlugLe, InCategory(s, c)), SortBy(SlugLe, InCategory(t, c)), a, b, n);
    }
  }

  /** Where one category is sorted with two entries exchanged, the scan has them exchanged as often as the category
      stands in the list. */
  lemma {:induction false} ScanChain(x: seq<Entry>, y: seq<Entry>, categories: seq<string>, a: Entry, b: Entry,
                                     p: seq<Entry>, q: seq<Entry>) returns (n: nat)
    requires Swapped(SortCategory(x, a.category), SortCategory(y, a.category), a, b, p, q)
    requires forall c :: c != a.category ==> SortCategory(x, c) == SortCategory(y, c)
    ensures Chain(SortEntries(x, categories), SortEntries(y, categories), a, b, n)
    ensures n > 0 <==> a.category in categories
  {
    if categories == [] {
      n := 0;
    } else {
      var c, rest := categories[0], categories[1..];
      var m := ScanChain(x, y, rest, a, b, p, q);
      assert SortEntries(x, categories) == SortCategory(x, c) + SortEntries(x, rest);
      assert SortEntries(y, categories) == SortCategory(y, c) + SortEntries(y, rest);
      assert categories == [c] + rest;
      if c == a.category {
        ChainFront(SortCategory(x, c), SortCategory(y, c), SortEntries(x, rest), SortEntries(y, rest), a, b, p, q, m);
        n := m + 1;
      } else {
        ChainRight(SortCategory(x, c), SortEntries(x, rest), SortEntries(y, rest), a, b, m);
        n := m;
      }
    }
  }

  /** Each section has the same shape after the exchanges, and that of the exchanged entries another text. */
  lemma SectionsTell(x: seq<Entry>, y: seq<Entry>, a: Entry, b: Entry, n: nat, c: string)
    requires Chain(x, y, a, b, n) && a.category == b.category && a.slug == b.slug && a.updated == b.updated
    requires Less(Both(a, b), Both(b, a)) && n > 0
    ensures SameShape(SectionOf(x, c), SectionOf(y, c))
    ensures c == a.category ==> SectionOf(x, c) != SectionOf(y, c)
  {
    ChainSortCategory(x, y, a, b, n, c);
    if c == a.category {
      var s, t := SortCategory(x, c), SortCategory(y, c);
      ChainLength(s, t, a, b, n);
      SectionChain(c, s, t, a, b, n);
      var u, p, q :| Swapped(s, u, a, b, p, q) && Chain(u, t, a, b, n - 1);
      assert s != [] && SectionOf(x, c)[0] != SectionOf(y, c)[0];
    }
  }

  /** Exchanged entries give another index. */
  lemma IndexTells(x: seq<Entry>, y: seq<Entry>, categories: seq<string>, a: Entry, b: Entry, n: nat, today: string)
    requires Chain(x, y, a, b, n) && a.category == b.category && a.slug == b.slug && a.updated == b.updated
    requires Less(Both(a, b), Both(b, a)) && n > 0 && a.category in categories
    ensures BuildIndex(x, categories, today) != BuildIndex(y, categories, today)
  {
    var s, t := (c: string) => SectionOf(x, c), (c: string) => SectionOf(y, c);
    forall i | 0 <= i < |categories| ensures SameShape(s(categories[i]), t(categories[i])) {
      SectionsTell(x, y, a, b, n, categories[i]);
    }
    SameShapes(s, t, categories);
    ShapeLength(Flat(s, categories), Flat(t, categories));
    assert Body(x, categories) == JoinSections(Flat(s, categories));
    assert Body(y, categories) == JoinSections(Flat(t, categories));
    BodyTells(x, y, categories, today);
    var i :| 0 <= i < |categories| && categories[i] == a.category;
    SectionsTell(x, y, a, b, n, categories[i]);
    if BuildIndex(x, categories, today) == BuildIndex(y, categories, today) {
      JoinSectionsTells(Flat(s, categories), Flat(t, categories));
      SamePieces(s, t, categories, i);
    }
  }

  lemma ClashOrdered(docs: Docs, categories: seq<string>, k: Key, l: Key, today: string)
    requires IsListed(docs, categories, k) && IsListed(docs, categories, l) && Tied(docs, k, l) && k != l
    requires var x, y := EntryAt(docs, k).value, EntryAt(docs, l).value; Less(Both(x, y), Both(y, x))
    ensures !IndexFixed(docs, categories, today)
  {
    var a, b := EntryAt(docs, k).value, EntryAt(docs, l).value;
    var f, g, p, q := TwoListings(docs, categories, k, l);
    var n := ScanChain(Entries(docs, categories, f), Entries(docs, categories, g), categories, a, b, p, q);
    IndexTells(Scan(docs, categories, f), Scan(docs, categories, g), categories, a, b, n, today);
    assert IndexText(docs, categories, f, today) != IndexText(docs, categories, g, today);
  }

  lemma ClashIndex(docs: Docs, categories: seq<string>, k: Key, l: Key, today: string)
    requires IsListed(docs, categories, k) && IsListed(docs, categories, l) && Tied(docs, k, l)
    requires Line(EntryAt(docs, k).value) != Line(EntryAt(docs, l).value)
    ensures !IndexFixed(docs, categories, today)
  {
    var a, b := EntryAt(docs, k).value, EntryAt(docs, l).value;
    EntryOneLine(docs, k);
    EntryOneLine(docs, l);
    if Both(a, b) == Both(b, a) {
      TiedLinesCommute(a, b);
    }
    LeTotal(Both(a, b), Both(b, a));
    if Less(Both(a, b), Both(b, a)) {
      ClashOrdered(docs, categories, k, l, today);
    } else {
      ClashOrdered(docs, categories, l, k, today);
    }
  }

  lemma {:induction false} ScanSame(x: seq<Entry>, y: seq<Entry>, categories: seq<string>)
    requires multiset(x) == multiset(y)
    ensures multiset(SortEntries(x, categories)) == multiset(SortEntries(y, categories))
  {
    if categories != [] {
      var c, rest := categories[0], categories[1..];
      SameEntries(x, y, c);
      ScanSame(x, y, rest);
      assert SortEntries(x, categories) == SortCategory(x, c) + SortEntries(x, rest);
      assert SortEntries(y, categories) == SortCategory(y, c) + SortEntries(y, rest);
    }
  }

  lemma ScanFromDocs(docs: Docs, categories: seq<string>, files: seq<Key>)
    requires Listing(docs, files)
    ensures FromDocs(docs, categories, Scan(docs, categories, files))
  {
    forall e | e in Scan(docs, categories, files) ensures exists k :: IsSource(docs, categories, k, e) {
      ScanExact(docs, categories, files, e);
      var k :| k in files && IsListed(docs, categories, k) && EntryAt(docs, k).value == e;
      assert IsSource(docs, categories, k, e);
    }
  }

  lemma NoClashIndex(docs: Docs, categories: seq<string>, f: seq<Key>, g: seq<Key>, today: string)
    requires Listing(docs, f) && Listing(docs, g) && NoClash(docs, categories, Line)
    ensures IndexText(docs, categories, f, today) == IndexText(docs, categories, g, today)
  {
    var x, y := Scan(docs, categories, f), Scan(docs, categories, g);
    SameFound(docs, categories, f, g);
    ScanSame(Entries(docs, categories, f), Entries(docs, categories, g), categories);
    ScanFromDocs(docs, categories, f);
    var s, t := (c: string) => SectionOf(x, c), (c: string) => SectionOf(y, c);
    forall i | 0 <= i < |categories| ensures s(categories[i]) == t(categories[i]) {
      SameShown(docs, categories, x, y, categories[i], Line);
      assert Lines(SortCategory(x, categories[i])) == Lines(SortCategory(y, categories[i]));
    }
    FlatSame(s, t, categories);
    assert Body(x, categories) == Body(y, categories);
  }

  /** The index is the same for every order in which the directories may be listed exactly when no two listed
      documents claim one category, slug and date and differ in the line they have in the index. */
  lemma IndexFixedExact(docs: Docs, categories: seq<string>, today: string)
    ensures IndexFixed(docs, categories, today) <==> NoClash(docs, categories, Line)
  {
    if NoClash(docs, categories, Line) {
      forall f, g | Listing(docs, f) && Listing(docs, g)
        ensures IndexText(docs, categories, f, today) == IndexText(docs, categories, g, today)
      {
        NoClashIndex(docs, categories, f, g, today);
      }
    } else {
      var k, l :| IsListed(docs, categories, k) && IsListed(docs, categories, l) && Tied(docs, k, l)
        && Line(EntryAt(docs, k).value) != Line(EntryAt(docs, l).value);
      ClashIndex(docs, categories, k, l, today);
    }
  }
}
