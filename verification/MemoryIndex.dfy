/** Memory documents and their index. */
module MemoryIndex {
  import opened Ordering
  import opened Folds
  import opened StableSort
  import Text
  import opened MemoryDocument

  /** A document's directory and slug. */
  type Key = (string, string)

  type Docs = map<Key, string>

  const INDEX_SLUG := "index"

  /** `read_entry_file`: a document parsed, with the slug of its file; a file called like the index is skipped. */
  function EntryAt(docs: Docs, k: Key): Option<Entry>
    requires k in docs
  {
    if k.1 == INDEX_SLUG then None
    else match Parse(docs[k])
      case Some(e) => Some(e.(slug := k.1))
      case None => None
  }

  function Found(docs: Docs, categories: seq<string>, k: Key): seq<Entry> {
    if k in docs && k.0 in categories && EntryAt(docs, k).Some? then [EntryAt(docs, k).value] else []
  }

  /** The entries met when the directories are listed in the order `files`. */
  function Entries(docs: Docs, categories: seq<string>, files: seq<Key>): seq<Entry> {
    Flat((k: Key) => Found(docs, categories, k), files)
  }

  /** `by_cat`. */
  function InCategory(entries: seq<Entry>, category: string): seq<Entry> {
    if entries == [] then []
    else if entries[0].category == category then [entries[0]] + InCategory(entries[1..], category)
    else InCategory(entries[1..], category)
  }

  predicate SlugLe(a: Entry, b: Entry) {
    Le(a.slug, b.slug)
  }

  /** `updated`, the latest first. */
  predicate LaterFirst(a: Entry, b: Entry) {
    Le(b.updated, a.updated)
  }

  /** The two stable sorts. */
  function SortItems(items: seq<Entry>): seq<Entry> {
    SortBy(LaterFirst, SortBy(SlugLe, items))
  }

  function SortCategory(entries: seq<Entry>, category: string): seq<Entry> {
    SortItems(InCategory(entries, category))
  }

  /** `_sort_entries`: by category in the order of the list; entries of other categories are dropped. */
  function SortEntries(entries: seq<Entry>, categories: seq<string>): seq<Entry> {
    Flat((c: string) => SortCategory(entries, c), categories)
  }

  /** `scan_entries`. */
  function Scan(docs: Docs, categories: seq<string>, files: seq<Key>): seq<Entry> {
    SortEntries(Entries(docs, categories, files), categories)
  }

  function RelPath(e: Entry): string {
    e.category + "/" + e.slug + ".md"
  }

  function Line(e: Entry): string {
    var summary := Text.Strip(e.summary);
    "- [" + e.title + "](" + RelPath(e) + ") — " + if summary != [] then summary else "(无摘要)"
  }

  function Lines(items: seq<Entry>): seq<string> {
    Map(Line, items)
  }

  function Label(category: string): string {
    if category == "user" then "用户" else if category == "project" then "项目"
    else if category == "decision" then "决策" else if category == "topic" then "主题" else category
  }

  /** One section: the header and a line for each entry. */
  function SectionText(category: string, items: seq<Entry>): string {
    Text.Join(["## " + Label(category) + "\n"] + Lines(items))
  }

  function SectionOf(entries: seq<Entry>, category: string): seq<string> {
    var items := SortCategory(entries, category);
    if items == [] then [] else [SectionText(category, items)]
  }

  function JoinSections(sections: seq<string>): string {
    if sections == [] then []
    else if |sections| == 1 then sections[0]
    else sections[0] + "\n\n" + JoinSections(sections[1..])
  }

  function Body(entries: seq<Entry>, categories: seq<string>): string {
    JoinSections(Flat((c: string) => SectionOf(entries, c), categories))
  }

  function Header(today: string): string {
    "# 记忆索引\n\n> 本文件由 MemoryService 自动生成,请勿手工编辑。\n> 更新:" + today + "\n"
  }

  /** `build_index`. */
  function BuildIndex(entries: seq<Entry>, categories: seq<string>, today: string): string {
    var body := Body(entries, categories);
    if body != [] then Header(today) + "\n" + body + "\n" else Header(today) + "\n"
  }

  /** `_rebuild_index`. */
  function IndexText(docs: Docs, categories: seq<string>, files: seq<Key>, today: string): string {
    BuildIndex(Scan(docs, categories, files), categories, today)
  }

  // ---------------------------------------------------------------- which entries there are

  ghost predicate NoRepeats<T>(xs: seq<T>) {
    forall i, j :: 0 <= i < j < |xs| ==> xs[i] != xs[j]
  }

  /** An order in which the files of the store may be listed. */
  ghost predicate Listing(docs: Docs, files: seq<Key>) {
    NoRepeats(files) && forall k :: k in files <==> k in docs
  }

  predicate IsListed(docs: Docs, categories: seq<string>, k: Key) {
    k in docs && k.0 in categories && EntryAt(docs, k).Some? && EntryAt(docs, k).value.category in categories
  }

  lemma {:induction false} InCategoryExact(entries: seq<Entry>, category: string, e: Entry)
    ensures e in InCategory(entries, category) <==> e in entries && e.category == category
  {
    if entries != [] {
      InCategoryExact(entries[1..], category, e);
      assert entries == [entries[0]] + entries[1..];
    }
  }

  lemma EntriesExact(docs: Docs, categories: seq<string>, files: seq<Key>, e: Entry)
    ensures e in Entries(docs, categories, files) <==> exists k :: k in files && e in Found(docs, categories, k)
  {
    var f := (k: Key) => Found(docs, categories, k);
    FlatMember(f, files, e);
    assert Entries(docs, categories, files) == Flat(f, files);
  }

  lemma SortedMember(entries: seq<Entry>, category: string, e: Entry)
    ensures e in SortCategory(entries, category) <==> e in entries && e.category == category
    ensures |SortCategory(entries, category)| == |InCategory(entries, category)|
  {
    SortMembers(SlugLe, InCategory(entries, category));
    SortMembers(LaterFirst, SortBy(SlugLe, InCategory(entries, category)));
    InCategoryExact(entries, category, e);
  }

  /** The scan's entries are those of the listed documents. */
  lemma ScanExact(docs: Docs, categories: seq<string>, files: seq<Key>, e: Entry)
    requires Listing(docs, files)
    ensures e in Scan(docs, categories, files) <==>
      exists k :: k in files && IsListed(docs, categories, k) && EntryAt(docs, k).value == e
  {
    var entries := Entries(docs, categories, files);
    var f := (c: string) => SortCategory(entries, c);
    FlatMember(f, categories, e);
    assert Scan(docs, categories, files) == Flat(f, categories);
    EntriesExact(docs, categories, files, e);
    forall c ensures e in f(c) <==> e in entries && e.category == c {
      SortedMember(entries, c, e);
    }
    if k :| k in files && e in Found(docs, categories, k) {
      assert e == EntryAt(docs, k).value;
    }
  }

  // ---------------------------------------------------------------- the order of the two sorts

  lemma OrdersAreOrders()
    ensures Preorder(SlugLe) && Preorder(LaterFirst)
  {
    forall a: Entry, b: Entry ensures (SlugLe(a, b) || SlugLe(b, a)) && (LaterFirst(a, b) || LaterFirst(b, a)) {
      LeTotal(a.slug, b.slug);
      LeTotal(a.updated, b.updated);
    }
    forall a: Entry, b: Entry, c: Entry | SlugLe(a, b) && SlugLe(b, c) ensures SlugLe(a, c) {
      LeTransitive(a.slug, b.slug, c.slug);
    }
    forall a: Entry, b: Entry, c: Entry | LaterFirst(a, b) && LaterFirst(b, c) ensures LaterFirst(a, c) {
      LeTransitive(c.updated, b.updated, a.updated);
    }
  }

  /** The order the two sorts make: latest first, then by slug. */
  predicate Before(a: Entry, b: Entry) {
    Less(b.updated, a.updated) || (a.updated == b.updated && Le(a.slug, b.slug))
  }

  predicate Anyhow(a: Entry, b: Entry) {
    true
  }

  /** The two sorts order any entries by date, latest first, and then by slug, and keep each of them. */
  lemma SortItemsExact(items: seq<Entry>)
    ensures Pairwise(Before, SortItems(items)) && multiset(SortItems(items)) == multiset(items)
  {
    var bySlug := SortBy(SlugLe, items);
    OrdersAreOrders();
    SortElements(SlugLe, items);
    SortElements(LaterFirst, bySlug);
    SortOrdered(SlugLe, Anyhow, items);
    SortOrdered(LaterFirst, SlugLe, bySlug);
    var s := SortItems(items);
    forall i, j | 0 <= i < j < |s| ensures Before(s[i], s[j]) {
      assert LaterFirst(s[i], s[j]);
      if s[i].updated == s[j].updated {
        LeReflexive(s[i].updated);
        assert LaterFirst(s[j], s[i]);
      }
    }
  }

  /** A storable entry that was written is found again. */
  lemma FoundStored(docs: Docs, categories: seq<string>, k: Key, e: Entry)
    requires k in docs && docs[k] == Serialize(e) && Storable(e) && k.1 != INDEX_SLUG
    ensures EntryAt(docs, k) == Some(e.(slug := k.1))
    ensures k.0 in categories ==> Found(docs, categories, k) == [e.(slug := k.1)]
  {
    WrittenIsReadBack(e);
  }

  // ---------------------------------------------------------------- the writes

  predicate HasEntry(entries: seq<Entry>, e: Entry) {
    exists i :: 0 <= i < |entries| && entries[i].category == e.category && entries[i].slug == e.slug
  }

  /** `_check_guardrails`. `tooLarge` says that the bytes stored have reached their limit. */
  predicate Allowed(docs: Docs, categories: seq<string>, files: seq<Key>, maxEntries: nat, e: Entry, tooLarge: bool) {
    && e.category in categories
    && (HasEntry(Scan(docs, categories, files), e) || |Scan(docs, categories, files)| < maxEntries)
    && !tooLarge
  }

  function KeyOf(e: Entry): Key {
    (e.category, e.slug)
  }

  function Written(docs: Docs, e: Entry): Docs {
    docs[KeyOf(e) := Serialize(e)]
  }

  function Cleared(docs: Docs, categories: seq<string>): Docs {
    map k | k in docs && k.0 !in categories :: docs[k]
  }

  lemma InCategoryNext(entries: seq<Entry>, e: Entry, category: string)
    ensures InCategory(entries + [e], category)
         == if e.category == category then InCategory(entries, category) + [e] else InCategory(entries, category)
  {
    if entries == [] {
      assert [] + [e] == [e] && [e][1..] == [];
    } else {
      assert (entries + [e])[1..] == entries[1..] + [e] && (entries + [e])[0] == entries[0];
      InCategoryNext(entries[1..], e, category);
    }
  }

  /** The store as `MemoryService` keeps it; its files are the documents and `index.md`. */
  class MemoryService {
    const categories: seq<string>
    const maxEntries: nat
    var docs: Docs
    var index: Option<string>

    constructor (categories: seq<string>, maxEntries: nat, docs: Docs)
      ensures this.categories == categories && this.maxEntries == maxEntries && this.docs == docs && index.None?
    {
      this.categories, this.maxEntries, this.docs, index := categories, maxEntries, docs, None;
    }

    /** `by_cat`: the entries grouped by category, each group in the order of the list. */
    static method GroupByCategory(entries: seq<Entry>) returns (byCat: map<string, seq<Entry>>)
      ensures forall c :: InCategory(entries, c) == if c in byCat then byCat[c] else []
    {
      byCat := map[];
      for i := 0 to |entries|
        invariant forall c :: InCategory(entries[..i], c) == if c in byCat then byCat[c] else []
      {
        var e := entries[i];
        assert entries[..i + 1] == entries[..i] + [e];
        forall c ensures InCategory(entries[..i + 1], c)
          == if c == e.category then InCategory(entries[..i], c) + [e] else InCategory(entries[..i], c)
        {
          InCategoryNext(entries[..i], e, c);
        }
        byCat := byCat[e.category := (if e.category in byCat then byCat[e.category] else []) + [e]];
      }
      assert entries[..|entries|] == entries;
    }

    /** `_sort_entries`. */
    method SortGroups(entries: seq<Entry>) returns (out: seq<Entry>)
      ensures out == SortEntries(entries, categories)
    {
      var byCat := GroupByCategory(entries);
      out := [];
      ghost var f := (c: string) => SortCategory(entries, c);
      for i := 0 to |categories|
        invariant out == Flat(f, categories[..i])
      {
        var c := categories[i];
        FlatNext(f, categories, i);
        out := out + SortItems(if c in byCat then byCat[c] else []);
      }
      assert categories[..|categories|] == categories;
    }

    /** `read_entry_file` on a file of one of the directories. */
    method ReadFile(k: Key) returns (found: seq<Entry>)
      ensures found == Found(docs, categories, k)
    {
      if k !in docs || k.0 !in categories || k.1 == INDEX_SLUG {
        return [];
      }
      var parsed := ParseDocument(docs[k]);
      match parsed
      case None => return [];
      case Some(e) => return [e.(slug := k.1)];
    }

    method ReadFiles(files: seq<Key>) returns (entries: seq<Entry>)
      ensures entries == Entries(docs, categories, files)
    {
      entries := [];
      ghost var d, c := docs, categories;
      ghost var f := (k: Key) => Found(d, c, k);
      for i := 0 to |files|
        invariant entries == Flat(f, files[..i])
      {
        FlatNext(f, files, i);
        var found := ReadFile(files[i]);
        entries := entries + found;
      }
      assert files[..|files|] == files;
    }

    /** `scan_entries`, the directories listed in the order `files`. */
    method ScanEntries(files: seq<Key>) returns (found: seq<Entry>)
      ensures found == Scan(docs, categories, files)
    {
      var entries := ReadFiles(files);
      found := SortGroups(entries);
    }

    /** `_rebuild_index`. */
    method RebuildIndex(files: seq<Key>, today: string)
      modifies this`index
      ensures index == Some(IndexText(docs, categories, files, today))
    {
      var entries := ScanEntries(files);
      index := Some(BuildIndex(entries, categories, today));
    }

    /** `update_memory`, under its locks; an error leaves everything as it was. */
    method UpdateMemory(e: Entry, before: seq<Key>, after: seq<Key>, today: string, tooLarge: bool) returns (ok: bool)
      modifies this
      ensures ok == Allowed(old(docs), categories, before, maxEntries, e, tooLarge)
      ensures docs == if ok then Written(old(docs), e) else old(docs)
      ensures ok ==> docs == old(docs)[(e.category, e.slug) := Serialize(e)]
      ensures index == if ok then Some(IndexText(docs, categories, after, today)) else old(index)
    {
      if e.category !in categories {
        return false;
      }
      var existing := ScanEntries(before);
      var isNew := !HasEntry(existing, e);
      if isNew && |existing| >= maxEntries {
        return false;
      }
      if tooLarge {
        return false;
      }
      docs := docs[(e.category, e.slug) := Serialize(e)];
      RebuildIndex(after, today);
      return true;
    }

    /** `delete_memory`, under its locks. */
    method DeleteMemory(category: string, slug: string, after: seq<Key>, today: string)
      modifies this
      ensures docs == old(docs) - {(category, slug)}
      ensures index == Some(IndexText(docs, categories, after, today))
    {
      docs := docs - {(category, slug)};
      RebuildIndex(after, today);
    }

    /** `clear_all`, under its lock. */
    method ClearAll(after: seq<Key>, today: string)
      modifies this
      ensures docs == Cleared(old(docs), categories)
      ensures forall k :: k in docs <==> k in old(docs) && k.0 !in categories
      ensures forall k :: k in docs ==> docs[k] == old(docs)[k]
      ensures index == Some(IndexText(docs, categories, after, today))
    {
      var todo := docs.Keys;
      while todo != {}
        invariant docs.Keys <= old(docs).Keys && todo <= old(docs).Keys && index == old(index)
        invariant forall k :: k in old(docs) ==> (k in docs <==> (k in todo || k.0 !in categories))
        invariant forall k :: k in docs ==> docs[k] == old(docs)[k]
        decreases |todo|
      {
        var k :| k in todo;
        if k.0 in categories {
          docs := docs - {k};
        }
        todo := todo - {k};
      }
      assert docs == Cleared(old(docs), categories);
      RebuildIndex(after, today);
    }
  }

  // ---------------------------------------------------------------- the text of an index

  /** The heading of a category. */
  function Heading(category: string): string {
    match category
    case "user" => "## 用户\n"
    case "project" => "## 项目\n"
    case "decision" => "## 决策\n"
    case "topic" => "## 主题\n"
    case _ => "## " + category + "\n"
  }

  /** The line of an entry. */
  function Bullet(e: Entry): string {
    "- [" + e.title + "](" + (e.category + "/" + e.slug + ".md") + ") — "
    + if Text.Strip(e.summary) == [] then "(无摘要)" else Text.Strip(e.summary)
  }

  /** The head of every index. */
  function Head(today: string): string {
    "# 记忆索引\n\n> 本文件由 MemoryService 自动生成,请勿手工编辑。\n> 更新:" + today + "\n"
  }

  lemma OneItem(e: Entry)
    ensures SortCategory([e], e.category) == [e]
  {
    assert [e][1..] == [];
    SortItemsExact([e]);
    var s := SortItems([e]);
    assert InCategory([e], e.category) == [e];
    assert multiset(s) == multiset{e};
    assert |s| == |multiset(s)| == 1;
    assert s[0] in multiset(s);
  }

  lemma NoItems(c: string)
    ensures SectionOf([], c) == []
  {
    assert InCategory([], c) == [];
    SortItemsExact([]);
    assert |multiset(SortItems([]))| == |SortItems([])|;
  }

  lemma SectionOfOne(e: Entry)
    ensures SectionOf([e], e.category) == [Heading(e.category) + "\n" + Bullet(e)]
  {
    OneItem(e);
    var h := "## " + Label(e.category) + "\n";
    assert h == Heading(e.category);
    assert Line(e) == Bullet(e);
    assert Lines([e]) == [Line(e)];
    assert [h] + [Line(e)] == [h, Line(e)] && [h, Line(e)][1..] == [Line(e)];
    assert Text.Join([h, Line(e)]) == h + "\n" + Line(e);
  }

  /** The index of one entry: head, heading and line, each after an empty line, and a line break at the end; without
      entries it is the head and an empty line. */
  lemma IndexOfOne(e: Entry, today: string)
    ensures BuildIndex([e], [e.category], today)
         == Head(today) + "\n" + (Heading(e.category) + "\n" + Bullet(e)) + "\n"
    ensures BuildIndex([], [e.category], today) == Head(today) + "\n"
  {
    var c := e.category;
    OneItem(e);
    SectionOfOne(e);
    var f := (k: string) => SectionOf([e], k);
    assert [c][1..] == [];
    assert Flat(f, [c]) == f(c) + [] == f(c);
    var none: seq<Entry> := [];
    var g := (k: string) => SectionOf(none, k);
    assert Flat(g, [c]) == g(c) + [] == g(c);
    NoItems(c);
  }

  lemma OneInCategory(e: Entry, category: string)
    ensures InCategory([e], category) == if e.category == category then [e] else []
  {
    assert [e][1..] == [];
  }

  lemma TwoInCategory(a: Entry, b: Entry, category: string)
    ensures InCategory([a, b], category) == InCategory([a], category) + InCategory([b], category)
  {
    assert [a, b][1..] == [b];
    OneInCategory(a, category);
  }

  /** Sections come in the order of the categories, with an empty line between them. */
  lemma IndexOfTwo(a: Entry, b: Entry, today: string)
    requires a.category != b.category
    ensures BuildIndex([b, a], [a.category, b.category], today)
         == Head(today) + "\n"
            + (Heading(a.category) + "\n" + Bullet(a) + "\n\n" + (Heading(b.category) + "\n" + Bullet(b))) + "\n"
  {
    var c, d, entries := a.category, b.category, [b, a];
    var f := (k: string) => SectionOf(entries, k);
    TwoInCategory(b, a, c);
    OneInCategory(a, c);
    OneInCategory(b, c);
    TwoInCategory(b, a, d);
    OneInCategory(a, d);
    OneInCategory(b, d);
    SectionOfOne(a);
    SectionOfOne(b);
    assert [c, d][1..] == [d] && [d][1..] == [];
    assert Flat(f, [d]) == f(d) + [] == f(d);
    assert Flat(f, [c, d]) == f(c) + f(d);
    assert (f(c) + f(d))[1..] == f(d) && (f(c) + f(d))[0] == f(c)[0] && |f(c) + f(d)| == 2;
    assert JoinSections(f(d)) == f(d)[0];
  }

  /** `x` stands before `y`: under an earlier category of the list, or under the same and later dated, or with the slug
      in front. */
  ghost predicate InOrder(categories: seq<string>, x: Entry, y: Entry) {
    exists a, b :: 0 <= a <= b < |categories| && categories[a] == x.category && categories[b] == y.category
      && (a == b ==> Before(x, y))
  }

  lemma CategoryMembers(entries: seq<Entry>, category: string, e: Entry)
    ensures e in SortCategory(entries, category) <==> e in entries && e.category == category
  {
    InCategoryExact(entries, category, e);
    SortItemsExact(InCategory(entries, category));
    var s, items := SortCategory(entries, category), InCategory(entries, category);
    assert e in multiset(s) <==> e in s;
    assert e in multiset(items) <==> e in items;
  }

  lemma OrderWithin(categories: seq<string>, x: Entry, y: Entry)
    requires categories != [] && x.category == y.category == categories[0] && Before(x, y)
    ensures InOrder(categories, x, y)
  {
    assert 0 <= 0 <= 0 < |categories|;
  }

  lemma OrderAcross(categories: seq<string>, x: Entry, y: Entry)
    requires categories != [] && x.category == categories[0] && y.category in categories[1..]
    ensures InOrder(categories, x, y)
  {
    var b :| 0 <= b < |categories[1..]| && categories[1..][b] == y.category;
    assert categories[b + 1] == y.category && categories[0] == x.category;
  }

  lemma OrderLater(categories: seq<string>, x: Entry, y: Entry)
    requires categories != [] && InOrder(categories[1..], x, y)
    ensures InOrder(categories, x, y)
  {
    var a, b :| 0 <= a <= b < |categories[1..]| && categories[1..][a] == x.category && categories[1..][b] == y.category
      && (a == b ==> Before(x, y));
    assert categories[a + 1] == x.category && categories[b + 1] == y.category;
  }

  /** A scan lists its entries by category, latest first and then by slug. */
  lemma {:induction false} SortedInOrder(entries: seq<Entry>, categories: seq<string>)
    ensures var s := SortEntries(entries, categories);
      && (forall i :: 0 <= i < |s| ==> s[i].category in categories)
      && (forall i, j :: 0 <= i < j < |s| ==> InOrder(categories, s[i], s[j]))
  {
    if categories != [] {
      var c, rest := categories[0], categories[1..];
      var f := (k: string) => SortCategory(entries, k);
      var first, more, s := SortCategory(entries, c), SortEntries(entries, rest), SortEntries(entries, categories);
      assert s == first + more && categories == [c] + rest;
      SortedInOrder(entries, rest);
      SortItemsExact(InCategory(entries, c));
      forall i | 0 <= i < |first| ensures first[i].category == c {
        assert first[i] in first;
        CategoryMembers(entries, c, first[i]);
      }
      forall i, j | 0 <= i < j < |s| ensures InOrder(categories, s[i], s[j]) {
        if j < |first| {
          OrderWithin(categories, s[i], s[j]);
        } else if i < |first| {
          assert s[j] == more[j - |first|];
          OrderAcross(categories, s[i], s[j]);
        } else {
          assert InOrder(rest, more[i - |first|], more[j - |first|]);
          OrderLater(categories, s[i], s[j]);
        }
      }
    }
  }
}
