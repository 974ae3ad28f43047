/** Configuration as a tree and as flat dotted rows. */
module ConfigFlat {
  import opened Ordering

  /** A leaf holds any value but a dict, in its JSON form. */
  datatype Tree = Leaf(value: string) | Node(children: map<string, Tree>)

  type Path = seq<string>

  type Rows = map<string, string>

  const SENSITIVE_KEYS := {"api_key", "secret_key", "app_secret", "bot_token", "webhook_secret"}
  const ALLOWED_KEYS := {"tools.web_search.api_key"}

  // ---------------------------------------------------------------- dotted keys

  predicate DotFree(k: string) {
    forall i :: 0 <= i < |k| ==> k[i] != '.'
  }

  /** `key.split(".")`. */
  function Split(key: string): (path: Path)
    ensures path != []
  {
    if key == [] then [[]]
    else
      var rest := Split(key[1..]);
      if key[0] == '.' then [[]] + rest else [[key[0]] + rest[0]] + rest[1..]
  }

  /** The components with a dot between each two. */
  function Dotted(path: Path): string {
    if path == [] then [] else if |path| == 1 then path[0] else path[0] + ['.'] + Dotted(path[1..])
  }

  /** The key of a child, as the flattening makes it. */
  function ChildKey(prefix: string, k: string): string {
    if prefix != [] then prefix + ['.'] + k else k
  }

  /** `_is_sensitive`: what counts is the part after the last dot. */
  predicate IsSensitive(key: string) {
    var parts := Split(key);
    key !in ALLOWED_KEYS && parts[|parts| - 1] in SENSITIVE_KEYS
  }

  lemma {:induction false} SplitFree(k: string)
    requires DotFree(k)
    ensures Split(k) == [k]
  {
    if k != [] {
      SplitFree(k[1..]);
      assert k == [k[0]] + k[1..];
    }
  }

  lemma {:induction false} SplitDot(a: string, b: string)
    requires DotFree(a)
    ensures Split(a + ['.'] + b) == [a] + Split(b)
  {
    var all := a + ['.'] + b;
    if a == [] {
      assert all[1..] == b && all[0] == '.';
    } else {
      SplitDot(a[1..], b);
      assert all[1..] == a[1..] + ['.'] + b && all[0] == a[0];
      assert a == [a[0]] + a[1..];
    }
  }

  lemma {:induction false} SplitDotted(p: Path)
    requires p != [] && forall i :: 0 <= i < |p| ==> DotFree(p[i])
    ensures Split(Dotted(p)) == p
  {
    if |p| == 1 {
      SplitFree(p[0]);
    } else {
      SplitDotted(p[1..]);
      SplitDot(p[0], Dotted(p[1..]));
    }
  }

  lemma {:induction false} SplitParts(key: string)
    ensures forall i :: 0 <= i < |Split(key)| ==> DotFree(Split(key)[i])
  {
    if key != [] {
      SplitParts(key[1..]);
    }
  }

  lemma DottedCons(c: char, path: Path)
    requires path != []
    ensures Dotted([[c] + path[0]] + path[1..]) == [c] + Dotted(path)
  {
    var longer := [[c] + path[0]] + path[1..];
    assert longer[1..] == path[1..] && longer[0] == [c] + path[0];
    if |path| > 1 {
      assert [c] + path[0] + ['.'] + Dotted(path[1..]) == [c] + (path[0] + ['.'] + Dotted(path[1..]));
    }
  }

  lemma {:induction false} DottedSplit(key: string)
    ensures Dotted(Split(key)) == key
  {
    if key != [] {
      var rest := Split(key[1..]);
      DottedSplit(key[1..]);
      if key[0] == '.' {
        assert ([[]] + rest)[1..] == rest;
        assert Dotted(Split(key)) == [] + ['.'] + Dotted(rest);
      } else {
        DottedCons(key[0], rest);
      }
    }
  }

  /** The key a path below a prefix is flattened to. */
  function FlatKey(prefix: string, p: Path): string
    decreases |p|
  {
    if p == [] then prefix else FlatKey(ChildKey(prefix, p[0]), p[1..])
  }

  /** A path that its key splits back into: no dot in a name, and no empty name in front of others. */
  predicate Clean(p: Path) {
    (forall i :: 0 <= i < |p| ==> DotFree(p[i])) && (|p| > 1 ==> p[0] != [])
  }

  lemma {:induction false} FlatBelow(prefix: string, p: Path)
    requires prefix != [] && p != []
    ensures FlatKey(prefix, p) == prefix + ['.'] + Dotted(p)
    decreases |p|
  {
    if |p| > 1 {
      FlatBelow(ChildKey(prefix, p[0]), p[1..]);
      assert prefix + ['.'] + p[0] + ['.'] + Dotted(p[1..]) == prefix + ['.'] + (p[0] + ['.'] + Dotted(p[1..]));
    }
  }

  /** Empty names in front leave no trace in the key. */
  function Bare(p: Path): Path {
    if |p| > 1 && p[0] == [] then Bare(p[1..]) else p
  }

  lemma {:induction false} BareShorter(p: Path)
    ensures |Bare(p)| <= |p| && (|p| > 1 && p[0] == [] ==> |Bare(p)| < |p|)
  {
    if |p| > 1 && p[0] == [] {
      BareShorter(p[1..]);
    }
  }

  lemma {:induction false} SplitFlat(p: Path)
    requires p != [] && forall i :: 0 <= i < |p| ==> DotFree(p[i])
    ensures Split(FlatKey([], p)) == Bare(p)
  {
    if |p| == 1 {
      SplitFree(p[0]);
    } else if p[0] == [] {
      SplitFlat(p[1..]);
    } else {
      FlatBelow(p[0], p[1..]);
      SplitDotted(p);
    }
  }

  lemma CleanExact(p: Path)
    requires p != []
    ensures Split(FlatKey([], p)) == p <==> Clean(p)
  {
    if forall i :: 0 <= i < |p| ==> DotFree(p[i]) {
      SplitFlat(p);
      BareShorter(p);
    } else {
      SplitParts(FlatKey([], p));
    }
  }

  // ---------------------------------------------------------------- trees

  /** The leaf at a path. */
  function Lookup(t: Tree, p: Path): Option<string> {
    match t
    case Leaf(v) => if p == [] then Some(v) else None
    case Node(m) => if p != [] && p[0] in m then Lookup(m[p[0]], p[1..]) else None
  }

  /** No dict but the root is empty. */
  ghost predicate Tidy(t: Tree) {
    t.Node? ==> t.children != map[] && forall k :: k in t.children ==> Tidy(t.children[k])
  }

  ghost predicate TidyRoot(t: Tree) {
    t.Node? && forall k :: k in t.children ==> Tidy(t.children[k])
  }

  /** The tree without sensitive leaves and without what is empty then; `key` is where it stands. */
  function Prune(t: Tree, key: string): Option<Tree> {
    match t
    case Leaf(v) => if IsSensitive(key) then None else Some(t)
    case Node(m) =>
      var kept := map k | k in m && Prune(m[k], ChildKey(key, k)).Some? :: Prune(m[k], ChildKey(key, k)).value;
      if kept == map[] then None else Some(Node(kept))
  }

  function PruneRoot(t: Tree): Tree {
    Prune(t, []).Or(Node(map[]))
  }

  function LookupIn(r: Option<Tree>, q: Path): Option<string> {
    if r.Some? then Lookup(r.value, q) else None
  }

  lemma PruneChild(t: Tree, key: string, q: Path)
    requires t.Node? && q != []
    ensures LookupIn(Prune(t, key), q)
         == if q[0] in t.children then LookupIn(Prune(t.children[q[0]], ChildKey(key, q[0])), q[1..]) else None
  {
    var m := t.children;
    var kept := map k | k in m && Prune(m[k], ChildKey(key, k)).Some? :: Prune(m[k], ChildKey(key, k)).value;
    assert q[0] in kept <==> q[0] in m && Prune(m[q[0]], ChildKey(key, q[0])).Some?;
    assert Prune(t, key) == if kept == map[] then None else Some(Node(kept));
  }

  /** The leaf that is left at a path: the one that was there, unless its key is sensitive. */
  function Surviving(t: Tree, key: string, q: Path): Option<string> {
    if IsSensitive(FlatKey(key, q)) then None else Lookup(t, q)
  }

  lemma {:induction false} PruneLookup(t: Tree, key: string, q: Path)
    ensures LookupIn(Prune(t, key), q) == Surviving(t, key, q)
    decreases t
  {
    if t.Node? && q != [] {
      PruneChild(t, key, q);
      if q[0] in t.children {
        PruneLookup(t.children[q[0]], ChildKey(key, q[0]), q[1..]);
      }
    }
  }

  lemma {:induction false} PruneTidy(t: Tree, key: string)
    ensures Prune(t, key).Some? ==> Tidy(Prune(t, key).value)
    decreases t
  {
    if t.Node? {
      var m := t.children;
      forall k | k in m ensures Prune(m[k], ChildKey(key, k)).Some? ==> Tidy(Prune(m[k], ChildKey(key, k)).value) {
        PruneTidy(m[k], ChildKey(key, k));
      }
    }
  }

  lemma {:induction false} SomeLeaf(t: Tree) returns (p: Path)
    requires Tidy(t)
    ensures Lookup(t, p).Some?
    decreases t
  {
    match t
    case Leaf(_) => p := [];
    case Node(m) =>
      assert m.Keys != {};
      var k :| k in m;
      var q := SomeLeaf(m[k]);
      p := [k] + q;
      assert p[1..] == q;
  }

  lemma ChildLookup(t: Tree, k: string, q: Path)
    requires t.Node?
    ensures Lookup(t, [k] + q) == if k in t.children then Lookup(t.children[k], q) else None
  {
    assert ([k] + q)[1..] == q;
  }

  lemma SameKeys(t: Tree, u: Tree, k: string)
    requires TidyRoot(t) && u.Node? && k in t.children
    requires forall q :: Lookup(t, q) == Lookup(u, q)
    ensures k in u.children
  {
    var q := SomeLeaf(t.children[k]);
    ChildLookup(t, k, q);
    ChildLookup(u, k, q);
    assert Lookup(t, [k] + q) == Lookup(u, [k] + q);
  }

  /** Trees without empty dicts are the same when they have the same leaves. */
  lemma {:induction false} SameLeaves(t: Tree, u: Tree)
    requires (TidyRoot(t) && TidyRoot(u)) || (Tidy(t) && Tidy(u))
    requires forall q :: Lookup(t, q) == Lookup(u, q)
    ensures t == u
    decreases t
  {
    assert Lookup(t, []) == Lookup(u, []);
    if t.Node? {
      forall k ensures k in t.children <==> k in u.children {
        if k in t.children { SameKeys(t, u, k); }
        if k in u.children { SameKeys(u, t, k); }
      }
      forall k | k in t.children ensures t.children[k] == u.children[k] {
        forall q ensures Lookup(t.children[k], q) == Lookup(u.children[k], q) {
          ChildLookup(t, k, q);
          ChildLookup(u, k, q);
          assert Lookup(t, [k] + q) == Lookup(u, [k] + q);
        }
        SameLeaves(t.children[k], u.children[k]);
      }
    }
  }

  // ---------------------------------------------------------------- importing

  /** Some leaf of the tree that stands at `prefix` is to be stored under the key with this value. */
  ghost predicate HasRow(t: Tree, prefix: string, key: string, v: string) {
    !IsSensitive(key) && exists p :: FlatKey(prefix, p) == key && Lookup(t, p) == Some(v)
  }

  ghost predicate HasKey(t: Tree, prefix: string, key: string) {
    exists v :: HasRow(t, prefix, key, v)
  }

  /** `rows` is `before` with a row for every leaf that is not sensitive; where leaves share a key, that of one. */
  ghost predicate Imported(rows: Rows, before: Rows, t: Tree, prefix: string) {
    && (forall k :: k in rows <==> k in before || HasKey(t, prefix, k))
    && (forall k :: k in rows ==>
          if HasKey(t, prefix, k) then HasRow(t, prefix, k, rows[k]) else k in before && rows[k] == before[k])
  }

  /** The part of a dict with some of its keys. */
  function Part(m: map<string, Tree>, keys: set<string>): Tree {
    Node(map k | k in m && k in keys :: m[k])
  }

  /** The rows of a dict and one more of its children. */
  lemma PartNext(m: map<string, Tree>, done: set<string>, c: string, prefix: string, key: string, v: string)
    requires c in m && c !in done
    ensures HasRow(Part(m, done + {c}), prefix, key, v)
       <==> HasRow(Part(m, done), prefix, key, v) || HasRow(m[c], ChildKey(prefix, c), key, v)
  {
    var a, b := Part(m, done), Part(m, done + {c});
    if HasRow(b, prefix, key, v) {
      var p :| FlatKey(prefix, p) == key && Lookup(b, p) == Some(v);
      if p[0] == c {
        assert FlatKey(ChildKey(prefix, c), p[1..]) == key && Lookup(m[c], p[1..]) == Some(v);
      } else {
        assert Lookup(a, p) == Some(v);
      }
    }
    if HasRow(a, prefix, key, v) {
      var p :| FlatKey(prefix, p) == key && Lookup(a, p) == Some(v);
      assert Lookup(b, p) == Some(v);
    }
    if HasRow(m[c], ChildKey(prefix, c), key, v) {
      var p :| FlatKey(ChildKey(prefix, c), p) == key && Lookup(m[c], p) == Some(v);
      assert ([c] + p)[1..] == p && FlatKey(prefix, [c] + p) == key && Lookup(b, [c] + p) == Some(v);
    }
  }

  lemma RowOfLeaf(value: string, prefix: string, key: string, v: string)
    ensures HasRow(Leaf(value), prefix, key, v) <==> key == prefix && !IsSensitive(key) && v == value
  {
    assert FlatKey(prefix, []) == prefix && Lookup(Leaf(value), []) == Some(value);
  }

  lemma ImportedLeaf(before: Rows, value: string, key: string)
    ensures Imported(if IsSensitive(key) then before else before[key := value], before, Leaf(value), key)
  {
    forall k, v ensures HasRow(Leaf(value), key, k, v) <==> k == key && !IsSensitive(k) && v == value {
      RowOfLeaf(value, key, k, v);
    }
    assert !IsSensitive(key) ==> HasKey(Leaf(value), key, key) by {
      RowOfLeaf(value, key, key, value);
    }
  }

  lemma ImportedNone(before: Rows, m: map<string, Tree>, prefix: string)
    ensures Imported(before, before, Part(m, {}), prefix)
  {
    forall k, v ensures !HasRow(Part(m, {}), prefix, k, v) {
    }
  }

  lemma KeyNext(m: map<string, Tree>, done: set<string>, c: string, prefix: string, key: string)
    requires c in m && c !in done
    ensures HasKey(Part(m, done + {c}), prefix, key)
       <==> HasKey(Part(m, done), prefix, key) || HasKey(m[c], ChildKey(prefix, c), key)
  {
    if v :| HasRow(Part(m, done + {c}), prefix, key, v) {
      PartNext(m, done, c, prefix, key, v);
    }
    if v :| HasRow(Part(m, done), prefix, key, v) {
      PartNext(m, done, c, prefix, key, v);
    }
    if v :| HasRow(m[c], ChildKey(prefix, c), key, v) {
      PartNext(m, done, c, prefix, key, v);
    }
  }

  lemma ImportedNext(rows: Rows, was: Rows, before: Rows, m: map<string, Tree>, done: set<string>, c: string,
                     prefix: string)
    requires c in m && c !in done
    requires Imported(was, before, Part(m, done), prefix) && Imported(rows, was, m[c], ChildKey(prefix, c))
    ensures Imported(rows, before, Part(m, done + {c}), prefix)
  {
    var a, b, ab := Part(m, done), m[c], Part(m, done + {c});
    forall k ensures HasKey(ab, prefix, k) <==> HasKey(a, prefix, k) || HasKey(b, ChildKey(prefix, c), k) {
      KeyNext(m, done, c, prefix, k);
    }
    forall k | k in rows && HasKey(ab, prefix, k) ensures HasRow(ab, prefix, k, rows[k]) {
      PartNext(m, done, c, prefix, k, rows[k]);
    }
  }

  // ---------------------------------------------------------------- how many leaves are stored

  function Below(k: string, paths: set<Path>): set<Path> {
    set p | p in paths :: [k] + p
  }

  /** The paths of the leaves whose keys are not sensitive. */
  function StoredPaths(t: Tree, prefix: string): set<Path> {
    match t
    case Leaf(_) => if IsSensitive(prefix) then {} else {[]}
    case Node(m) => set k, p | k in m && p in StoredPaths(m[k], ChildKey(prefix, k)) :: [k] + p
  }

  lemma {:induction false} StoredExact(t: Tree, prefix: string, p: Path)
    ensures p in StoredPaths(t, prefix) <==> Lookup(t, p).Some? && !IsSensitive(FlatKey(prefix, p))
    decreases |p|
  {
    if t.Node? && p != [] && p[0] in t.children {
      StoredExact(t.children[p[0]], ChildKey(prefix, p[0]), p[1..]);
      assert p == [p[0]] + p[1..];
    }
  }

  lemma {:induction false} BelowSize(k: string, paths: set<Path>)
    ensures |Below(k, paths)| == |paths|
  {
    if paths != {} {
      var p :| p in paths;
      BelowSize(k, paths - {p});
      forall q | q in paths - {p} ensures [k] + q != [k] + p {
        assert ([k] + q)[1..] == q && ([k] + p)[1..] == p;
      }
      assert Below(k, paths) == Below(k, paths - {p}) + {[k] + p};
    }
  }

  lemma InStored(m: map<string, Tree>, keys: set<string>, prefix: string, p: Path)
    ensures p in StoredPaths(Part(m, keys), prefix) <==>
      p != [] && p[0] in m && p[0] in keys && p[1..] in StoredPaths(m[p[0]], ChildKey(prefix, p[0]))
  {
    assert p != [] ==> p == [p[0]] + p[1..];
    forall k, q: Path | p == [k] + q ensures p != [] && p[0] == k && p[1..] == q {
    }
  }

  lemma InBelow(k: string, paths: set<Path>, p: Path)
    ensures p in Below(k, paths) <==> p != [] && p[0] == k && p[1..] in paths
  {
    assert p != [] ==> p == [p[0]] + p[1..];
    forall q: Path | p == [k] + q ensures p != [] && p[0] == k && p[1..] == q {
    }
  }

  lemma StoredSplit(m: map<string, Tree>, done: set<string>, c: string, prefix: string)
    requires c in m && c !in done
    ensures StoredPaths(Part(m, done + {c}), prefix)
         == StoredPaths(Part(m, done), prefix) + Below(c, StoredPaths(m[c], ChildKey(prefix, c)))
    ensures forall p :: p in StoredPaths(Part(m, done), prefix) ==> p != [] && p[0] != c
  {
    forall p ensures p in StoredPaths(Part(m, done + {c}), prefix)
      <==> p in StoredPaths(Part(m, done), prefix) || p in Below(c, StoredPaths(m[c], ChildKey(prefix, c)))
    {
      InStored(m, done, prefix, p);
      InStored(m, done + {c}, prefix, p);
      InBelow(c, StoredPaths(m[c], ChildKey(prefix, c)), p);
    }
    forall p | p in StoredPaths(Part(m, done), prefix) ensures p != [] && p[0] != c {
      InStored(m, done, prefix, p);
    }
  }

  /** The leaves of a dict and of one more of its children. */
  lemma StoredNext(m: map<string, Tree>, done: set<string>, c: string, prefix: string)
    requires c in m && c !in done
    ensures |StoredPaths(Part(m, done + {c}), prefix)|
         == |StoredPaths(Part(m, done), prefix)| + |StoredPaths(m[c], ChildKey(prefix, c))|
  {
    var a, b := StoredPaths(Part(m, done), prefix), Below(c, StoredPaths(m[c], ChildKey(prefix, c)));
    BelowSize(c, StoredPaths(m[c], ChildKey(prefix, c)));
    StoredSplit(m, done, c, prefix);
    assert a !! b;
  }

  /** The keys of some paths. */
  function KeysOf(prefix: string, paths: set<Path>): set<string> {
    set p | p in paths :: FlatKey(prefix, p)
  }

  ghost predicate KeysApart(prefix: string, paths: set<Path>) {
    forall p, q :: p in paths && q in paths && FlatKey(prefix, p) == FlatKey(prefix, q) ==> p == q
  }

  lemma {:induction false} KeysOfSize(prefix: string, paths: set<Path>)
    ensures |KeysOf(prefix, paths)| <= |paths|
    ensures |KeysOf(prefix, paths)| == |paths| <==> KeysApart(prefix, paths)
  {
    if paths != {} {
      var p :| p in paths;
      var rest := paths - {p};
      KeysOfSize(prefix, rest);
      assert KeysOf(prefix, paths) == KeysOf(prefix, rest) + {FlatKey(prefix, p)};
      if KeysApart(prefix, rest) && FlatKey(prefix, p) !in KeysOf(prefix, rest) {
        forall q | q in rest ensures FlatKey(prefix, q) != FlatKey(prefix, p) {
          assert FlatKey(prefix, q) in KeysOf(prefix, rest);
        }
        assert KeysApart(prefix, paths);
      }
    }
  }

  lemma KeyStored(t: Tree, prefix: string, key: string)
    ensures HasKey(t, prefix, key) <==> key in KeysOf(prefix, StoredPaths(t, prefix))
  {
    if HasKey(t, prefix, key) {
      var v :| HasRow(t, prefix, key, v);
      var p :| FlatKey(prefix, p) == key && Lookup(t, p) == Some(v);
      StoredExact(t, prefix, p);
    }
    if key in KeysOf(prefix, StoredPaths(t, prefix)) {
      var p :| p in StoredPaths(t, prefix) && FlatKey(prefix, p) == key;
      StoredExact(t, prefix, p);
      assert HasRow(t, prefix, key, Lookup(t, p).value);
    }
  }

  /** The count of an import into an empty table is at least the number of rows, and is that number exactly when no
      two stored leaves have the same key. */
  lemma CountExact(rows: Rows, data: Tree)
    requires Imported(rows, map[], data, [])
    ensures |rows| <= |StoredPaths(data, [])|
    ensures |rows| == |StoredPaths(data, [])| <==> KeysApart([], StoredPaths(data, []))
  {
    var paths := StoredPaths(data, []);
    forall key ensures key in rows <==> key in KeysOf([], paths) {
      KeyStored(data, [], key);
    }
    assert rows.Keys == KeysOf([], paths);
    KeysOfSize([], paths);
  }

  // ---------------------------------------------------------------- which leaves are stored

  /** The name, or a longer key that ends in it after a dot. */
  ghost predicate EndsIn(key: string, name: string) {
    key == name || exists a :: key == a + "." + name
  }

  /** The names of secrets. */
  ghost predicate EndsInSecret(key: string) {
    || EndsIn(key, "api_key") || EndsIn(key, "secret_key") || EndsIn(key, "app_secret")
    || EndsIn(key, "bot_token") || EndsIn(key, "webhook_secret")
  }

  function LastPart(key: string): string {
    var parts := Split(key);
    parts[|parts| - 1]
  }

  lemma {:induction false} TwoParts(a: string, b: string)
    ensures |Split(a + ['.'] + b)| >= 2
  {
    var all := a + ['.'] + b;
    if a == [] {
      assert all[1..] == b && all[0] == '.';
    } else {
      TwoParts(a[1..], b);
      assert all[1..] == a[1..] + ['.'] + b && all[0] == a[0];
    }
  }

  lemma {:induction false} LastPartAfter(a: string, b: string)
    ensures LastPart(a + ['.'] + b) == LastPart(b)
  {
    var all := a + ['.'] + b;
    if a == [] {
      assert all[1..] == b && all[0] == '.';
    } else {
      LastPartAfter(a[1..], b);
      assert all[1..] == a[1..] + ['.'] + b && all[0] == a[0];
      var rest := Split(all[1..]);
      TwoParts(a[1..], b);
    }
  }

  lemma {:induction false} DottedLast(parts: Path)
    requires parts != []
    ensures EndsIn(Dotted(parts), parts[|parts| - 1])
  {
    if |parts| > 1 {
      DottedLast(parts[1..]);
      var last, rest := parts[|parts| - 1], Dotted(parts[1..]);
      if rest == last {
        assert Dotted(parts) == parts[0] + "." + last;
      } else {
        var a :| rest == a + "." + last;
        assert Dotted(parts) == parts[0] + "." + a + "." + last;
      }
    }
  }

  /** A key's last part is a name without dots just when the key ends in that name. */
  lemma LastPartExact(key: string, name: string)
    requires DotFree(name)
    ensures LastPart(key) == name <==> EndsIn(key, name)
  {
    SplitFree(name);
    DottedSplit(key);
    DottedLast(Split(key));
    if key != name && EndsIn(key, name) {
      var a :| key == a + "." + name;
      LastPartAfter(a, name);
    }
  }

  /** What counts as sensitive: the five names at the end of a key, and not the one key that is allowed. */
  lemma SensitiveExact(key: string)
    ensures IsSensitive(key) <==> key != "tools.web_search.api_key" && EndsInSecret(key)
  {
    LastPartExact(key, "api_key");
    LastPartExact(key, "secret_key");
    LastPartExact(key, "app_secret");
    LastPartExact(key, "bot_token");
    LastPartExact(key, "webhook_secret");
  }

  lemma LeafStored(rows: Rows, data: Tree, p: Path)
    requires Imported(rows, map[], data, []) && Lookup(data, p).Some?
    ensures FlatKey([], p) in rows <==> !IsSensitive(FlatKey([], p))
  {
    var key, v := FlatKey([], p), Lookup(data, p).value;
    assert !IsSensitive(key) ==> HasRow(data, [], key, v);
    if w :| HasRow(data, [], key, w) {
      assert !IsSensitive(key);
    }
  }

  /** An import into an empty table has a row for a leaf exactly when the leaf's key does not end in the name of a
      secret, or is the one key that is allowed. */
  lemma SecretsStayOut(rows: Rows, data: Tree)
    requires Imported(rows, map[], data, [])
    ensures forall p {:trigger FlatKey([], p)} :: Lookup(data, p).Some? ==>
      (FlatKey([], p) in rows <==> FlatKey([], p) == "tools.web_search.api_key" || !EndsInSecret(FlatKey([], p)))
  {
    forall p | Lookup(data, p).Some?
      ensures FlatKey([], p) in rows
         <==> FlatKey([], p) == "tools.web_search.api_key" || !EndsInSecret(FlatKey([], p))
    {
      LeafStored(rows, data, p);
      SensitiveExact(FlatKey([], p));
    }
  }

  /** Every row of such an import is that of a leaf, with its value. */
  lemma RowsAreLeaves(rows: Rows, data: Tree, key: string)
    requires Imported(rows, map[], data, []) && key in rows
    ensures exists p :: FlatKey([], p) == key && Lookup(data, p) == Some(rows[key])
  {
    assert HasRow(data, [], key, rows[key]);
  }

  /** The key of a path is its names with dots between them, where no name in front of others is empty. */
  lemma FlatKeyDotted(p: Path)
    requires p != [] && forall i :: 0 <= i < |p| - 1 ==> p[i] != []
    ensures FlatKey([], p) == Dotted(p)
  {
    if |p| > 1 {
      FlatBelow(p[0], p[1..]);
      assert FlatKey([], p) == FlatKey(p[0], p[1..]);
    } else {
      assert p[1..] == [];
      assert FlatKey([], p) == FlatKey(ChildKey([], p[0]), []);
    }
  }

  class ConfigRepository {
    var rows: Rows

    constructor ()
      ensures rows == map[]
    {
      rows := map[];
    }

    /** `_set_sync`: one row per key. */
    method SetSync(key: string, value: string)
      modifies this
      ensures rows == old(rows)[key := value]
    {
      rows := rows[key := value];
    }

    /** `_flatten`, the items of a dict met in any order; `count` is what it adds to the outer count. */
    method Flatten(t: Tree, prefix: string) returns (count: nat)
      requires t.Node?
      modifies this
      ensures Imported(rows, old(rows), t, prefix) && count == |StoredPaths(t, prefix)|
      decreases t
    {
      ghost var before, done: set<string> := rows, {};
      var m := t.children;
      var todo := m.Keys;
      count := 0;
      ImportedNone(before, m, prefix);
      while todo != {}
        invariant todo !! done && todo + done == m.Keys
        invariant Imported(rows, before, Part(m, done), prefix)
        invariant count == |StoredPaths(Part(m, done), prefix)|
        decreases |todo|
      {
        var k :| k in todo;
        var newKey := if prefix != [] then prefix + ['.'] + k else k;
        ghost var was := rows;
        var more := FlattenOne(m[k], newKey, t);
        ImportedNext(rows, was, before, m, done, k, prefix);
        StoredNext(m, done, k, prefix);
        count := count + more;
        done, todo := done + {k}, todo - {k};
      }
      assert done == m.Keys && Part(m, done) == t;
    }

    method FlattenOne(v: Tree, newKey: string, ghost parent: Tree) returns (count: nat)
      requires v < parent
      modifies this
      ensures Imported(rows, old(rows), v, newKey) && count == |StoredPaths(v, newKey)|
      decreases parent, 0
    {
      count := 0;
      match v
      case Node(_) => count := Flatten(v, newKey);
      case Leaf(value) =>
        ImportedLeaf(rows, value, newKey);
        if !IsSensitive(newKey) {
          SetSync(newKey, value);
          count := count + 1;
        }
    }

    /** `import_from_dict`: how many leaves were stored. */
    method ImportFromDict(data: Tree) returns (count: nat)
      requires data.Node?
      modifies this
      ensures Imported(rows, old(rows), data, []) && count == |StoredPaths(data, [])|
    {
      count := Flatten(data, []);
    }
  }

  // ---------------------------------------------------------------- exporting

  /** One row: `setdefault` down to the last part, which gets the value. A leaf in the way is an error. */
  function Insert(t: Tree, path: Path, v: string): Option<Tree>
    requires path != []
    decreases |path|
  {
    if t.Leaf? then None
    else
      var m := t.children;
      if |path| == 1 then Some(Node(m[path[0] := Leaf(v)]))
      else
        var child := if path[0] in m then m[path[0]] else Node(map[]);
        match Insert(child, path[1..], v)
        case Some(c) => Some(Node(m[path[0] := c]))
        case None => None
  }

  /** The rows written into the tree in some order. */
  function Rebuild(t: Tree, rows: Rows, order: seq<string>): Option<Tree>
    requires forall k :: k in order ==> k in rows
    decreases |order|
  {
    if order == [] then Some(t)
    else match Insert(t, Split(order[0]), rows[order[0]])
      case Some(u) => Rebuild(u, rows, order[1..])
      case None => None
  }

  /** `export_to_dict`, the rows met in the order `order`. */
  method ExportToDict(rows: Rows, order: seq<string>) returns (result: Option<Tree>)
    requires forall k :: k in order ==> k in rows
    ensures result == Rebuild(Node(map[]), rows, order)
  {
    var t := Node(map[]);
    for i := 0 to |order|
      invariant Rebuild(Node(map[]), rows, order) == Rebuild(t, rows, order[i..])
    {
      assert order[i..][0] == order[i] && order[i..][1..] == order[i + 1..];
      var u := Insert(t, Split(order[i]), rows[order[i]]);
      if u.None? {
        return None;
      }
      t := u.value;
    }
    return Some(t);
  }

  /** No leaf of the tree is above or below the path, nor at it. */
  ghost predicate Apart(t: Tree, p: Path) {
    forall q :: Lookup(t, q).Some? ==> !(q <= p) && !(p <= q)
  }

  lemma PrefixCons(a: string, q: Path, r: Path)
    ensures q <= r <==> [a] + q <= [a] + r
  {
    assert ([a] + q)[1..] == q && ([a] + r)[1..] == r;
    assert |q| <= |r| ==> ([a] + r)[..|q| + 1] == [a] + r[..|q|];
  }

  lemma ApartChild(t: Tree, p: Path)
    requires t.Node? && p != [] && Apart(t, p) && p[0] in t.children
    ensures Apart(t.children[p[0]], p[1..])
  {
    assert p == [p[0]] + p[1..];
    forall q | Lookup(t.children[p[0]], q).Some? ensures !(q <= p[1..]) && !(p[1..] <= q) {
      ChildLookup(t, p[0], q);
      PrefixCons(p[0], q, p[1..]);
      PrefixCons(p[0], p[1..], q);
    }
  }

  /** What stands where a path begins is a dict the path goes through. */
  lemma ThroughDict(t: Tree, p: Path)
    requires TidyRoot(t) && p != [] && Apart(t, p) && p[0] in t.children
    ensures |p| > 1 && t.children[p[0]].Node?
  {
    var q := SomeLeaf(t.children[p[0]]);
    ChildLookup(t, p[0], q);
    ChildLookup(t, p[0], []);
    assert [p[0]] <= [p[0]] + q && [p[0]] + [] == [p[0]] <= p;
  }

  lemma InsertLeaf(t: Tree, k: string, v: string)
    requires TidyRoot(t) && k !in t.children
    ensures var n := Node(t.children[k := Leaf(v)]);
      TidyRoot(n) && n.children != map[] && forall q :: Lookup(n, q) == if q == [k] then Some(v) else Lookup(t, q)
  {
    var n := Node(t.children[k := Leaf(v)]);
    assert k in n.children;
    forall q ensures Lookup(n, q) == if q == [k] then Some(v) else Lookup(t, q) {
      if q != [] && q[0] == k {
        assert q == [k] + q[1..];
      }
    }
  }

  lemma InsertChild(t: Tree, p: Path, v: string, child: Tree)
    requires TidyRoot(t) && |p| > 1 && child == (if p[0] in t.children then t.children[p[0]] else Node(map[]))
    requires Insert(child, p[1..], v).Some?
    requires TidyRoot(Insert(child, p[1..], v).value) && Insert(child, p[1..], v).value.children != map[]
    requires forall q :: Lookup(Insert(child, p[1..], v).value, q) == if q == p[1..] then Some(v) else Lookup(child, q)
    ensures Insert(t, p, v).Some? && TidyRoot(Insert(t, p, v).value) && Insert(t, p, v).value.children != map[]
    ensures forall q :: Lookup(Insert(t, p, v).value, q) == if q == p then Some(v) else Lookup(t, q)
  {
    if t.Node? {
      var c := Insert(child, p[1..], v).value;
      var n := Node(t.children[p[0] := c]);
      assert Insert(t, p, v) == Some(n) && p[0] in n.children;
      forall q ensures Lookup(n, q) == if q == p then Some(v) else Lookup(t, q) {
        if q != [] && q[0] == p[0] {
          assert p == [p[0]] + p[1..] && q == [q[0]] + q[1..];
        }
      }
    }
  }

  /** A path apart from all leaves can be written: its leaf is added and nothing else changes. */
  lemma {:induction false} InsertExact(t: Tree, p: Path, v: string)
    requires TidyRoot(t) && p != [] && Apart(t, p)
    ensures Insert(t, p, v).Some? && TidyRoot(Insert(t, p, v).value) && Insert(t, p, v).value.children != map[]
    ensures forall q :: Lookup(Insert(t, p, v).value, q) == if q == p then Some(v) else Lookup(t, q)
    decreases |p|
  {
    var m := t.children;
    if p[0] in m {
      ThroughDict(t, p);
      ApartChild(t, p);
    }
    if |p| == 1 {
      InsertLeaf(t, p[0], v);
      assert p == [p[0]];
    } else {
      var child := if p[0] in m then m[p[0]] else Node(map[]);
      InsertExact(child, p[1..], v);
      InsertChild(t, p, v, child);
    }
  }

  /** The leaf at a path that some rows ask for. */
  function Wanted(rows: Rows, done: set<string>, q: Path): Option<string> {
    var k := Dotted(q);
    if q != [] && Split(k) == q && k in done && k in rows then Some(rows[k]) else None
  }

  ghost predicate PrefixFree(keys: set<string>) {
    forall k, l :: k in keys && l in keys && k != l ==> !(Split(k) <= Split(l))
  }

  lemma WantedApart(t: Tree, rows: Rows, done: set<string>, key: string)
    requires PrefixFree(rows.Keys) && done <= rows.Keys && key in rows && key !in done
    requires forall q :: Lookup(t, q) == Wanted(rows, done, q)
    ensures Apart(t, Split(key))
    ensures forall q ::
      Wanted(rows, done + {key}, q) == if q == Split(key) then Some(rows[key]) else Wanted(rows, done, q)
  {
    DottedSplit(key);
    forall q | Lookup(t, q).Some? ensures !(q <= Split(key)) && !(Split(key) <= q) {
      assert Wanted(rows, done, q).Some?;
      var k := Dotted(q);
      assert k in rows.Keys && key in rows.Keys && k != key;
    }
    forall q
      ensures Wanted(rows, done + {key}, q) == if q == Split(key) then Some(rows[key]) else Wanted(rows, done, q)
    {
    }
  }

  ghost predicate NoRepeats(order: seq<string>) {
    forall i, j :: 0 <= i < j < |order| ==> order[i] != order[j]
  }

  function Keys(order: seq<string>): set<string> {
    set k | k in order
  }

  lemma {:induction false} RebuildExact(t: Tree, rows: Rows, done: set<string>, order: seq<string>)
    requires PrefixFree(rows.Keys) && done <= rows.Keys && TidyRoot(t)
    requires forall q :: Lookup(t, q) == Wanted(rows, done, q)
    requires (forall k :: k in order ==> k in rows && k !in done) && NoRepeats(order)
    ensures Rebuild(t, rows, order).Some? && TidyRoot(Rebuild(t, rows, order).value)
    ensures forall q :: Lookup(Rebuild(t, rows, order).value, q) == Wanted(rows, done + Keys(order), q)
    decreases |order|
  {
    if order == [] {
      assert done + Keys(order) == done;
    } else {
      var key := order[0];
      WantedApart(t, rows, done, key);
      InsertExact(t, Split(key), rows[key]);
      RebuildExact(Insert(t, Split(key), rows[key]).value, rows, done + {key}, order[1..]);
      assert order == [key] + order[1..];
      assert done + {key} + Keys(order[1..]) == done + Keys(order);
    }
  }

  // ---------------------------------------------------------------- there and back

  lemma {:induction false} LeafAlone(t: Tree, p: Path, q: Path)
    requires Lookup(t, p).Some? && Lookup(t, q).Some? && p <= q
    ensures p == q
    decreases t
  {
    if t.Node? {
      LeafAlone(t.children[p[0]], p[1..], q[1..]);
      assert p == [p[0]] + p[1..] && q == [q[0]] + q[1..];
    }
  }

  /** Every leaf that is stored has a clean path. */
  ghost predicate AllClean(t: Tree) {
    forall p :: p != [] && Surviving(t, [], p).Some? ==> Clean(p)
  }

  /** With clean paths, a stored key splits into the path of its one leaf. */
  lemma RowPath(rows: Rows, t: Tree, key: string)
    requires t.Node? && AllClean(t) && Imported(rows, map[], t, []) && key in rows
    ensures Lookup(t, Split(key)) == Some(rows[key]) && FlatKey([], Split(key)) == key
  {
    assert HasRow(t, [], key, rows[key]);
    var p :| FlatKey([], p) == key && Lookup(t, p) == Some(rows[key]);
    assert Surviving(t, [], p).Some?;
    CleanExact(p);
  }

  lemma ImportedPrefixFree(rows: Rows, t: Tree)
    requires t.Node? && AllClean(t) && Imported(rows, map[], t, [])
    ensures PrefixFree(rows.Keys)
  {
    forall k, l | k in rows.Keys && l in rows.Keys && Split(k) <= Split(l) ensures k == l {
      RowPath(rows, t, k);
      RowPath(rows, t, l);
      LeafAlone(t, Split(k), Split(l));
    }
  }

  lemma WantedIsSurviving(t: Tree, rows: Rows, q: Path)
    requires t.Node? && AllClean(t) && Imported(rows, map[], t, [])
    ensures Wanted(rows, rows.Keys, q) == Surviving(t, [], q)
  {
    if Surviving(t, [], q).Some? {
      var k := FlatKey([], q);
      CleanExact(q);
      DottedSplit(k);
      assert HasRow(t, [], k, Lookup(t, q).value);
      assert HasKey(t, [], k);
      RowPath(rows, t, k);
    }
    if Wanted(rows, rows.Keys, q).Some? {
      RowPath(rows, t, Dotted(q));
      assert HasRow(t, [], Dotted(q), rows[Dotted(q)]);
    }
  }

  lemma CleanRoundTrip(t: Tree, rows: Rows, order: seq<string>)
    requires t.Node? && AllClean(t) && Imported(rows, map[], t, [])
    requires NoRepeats(order) && Keys(order) == rows.Keys && forall k :: k in order ==> k in rows
    ensures Rebuild(Node(map[]), rows, order) == Some(PruneRoot(t))
  {
    ImportedPrefixFree(rows, t);
    RebuildExact(Node(map[]), rows, {}, order);
    var r := Rebuild(Node(map[]), rows, order).value;
    PruneTidy(t, []);
    forall q ensures Lookup(r, q) == Lookup(PruneRoot(t), q) {
      PruneLookup(t, [], q);
      WantedIsSurviving(t, rows, q);
      assert {} + Keys(order) == rows.Keys;
    }
    SameLeaves(r, PruneRoot(t));
  }

  lemma {:induction false} InsertLeaves(t: Tree, p: Path, v: string, q: Path)
    requires p != [] && LookupIn(Insert(t, p, v), q).Some?
    ensures q == p || Lookup(t, q).Some?
    decreases |p|
  {
    var m := t.children;
    if q[0] == p[0] {
      assert p == [p[0]] + p[1..] && q == [q[0]] + q[1..];
      if |p| > 1 {
        var child := if p[0] in m then m[p[0]] else Node(map[]);
        InsertLeaves(child, p[1..], v, q[1..]);
      } else {
        assert Lookup(Insert(t, p, v).value, q) == Lookup(Leaf(v), q[1..]);
        assert p[1..] == [];
      }
    }
  }

  /** The leaves of a rebuilt tree are at the paths that the keys split into. */
  lemma {:induction false} RebuildLeaves(t: Tree, rows: Rows, order: seq<string>, q: Path)
    requires (forall k :: k in order ==> k in rows) && LookupIn(Rebuild(t, rows, order), q).Some?
    ensures Lookup(t, q).Some? || exists k :: k in order && Split(k) == q
    decreases |order|
  {
    if order != [] {
      var u := Insert(t, Split(order[0]), rows[order[0]]);
      RebuildLeaves(u.value, rows, order[1..], q);
      assert order == [order[0]] + order[1..];
      if Lookup(u.value, q).Some? {
        InsertLeaves(t, Split(order[0]), rows[order[0]], q);
        assert order[0] in order;
      } else {
        var k :| k in order[1..] && Split(k) == q;
        assert k in order;
      }
    }
  }

  ghost predicate Uncut(p: Path) {
    forall i :: 0 <= i < |p| ==> DotFree(p[i])
  }

  /** From a stored leaf with an unclean path that is in the rebuilt tree comes one with a longer path. */
  lemma LongerUnclean(t: Tree, rows: Rows, order: seq<string>, p: Path) returns (q: Path)
    requires t.Node? && Imported(rows, map[], t, [])
    requires Keys(order) == rows.Keys && forall k :: k in order ==> k in rows
    requires Rebuild(Node(map[]), rows, order) == Some(PruneRoot(t))
    requires p != [] && Surviving(t, [], p).Some? && !Clean(p)
    ensures q != [] && Surviving(t, [], q).Some? && !Clean(q) && (Uncut(q) ==> |p| < |q|)
    ensures Uncut(p)
  {
    PruneLookup(t, [], p);
    RebuildLeaves(Node(map[]), rows, order, p);
    var k :| k in order && Split(k) == p;
    SplitParts(k);
    assert HasRow(t, [], k, rows[k]);
    q :| FlatKey([], q) == k && Lookup(t, q) == Some(rows[k]);
    CleanExact(q);
    CleanExact(p);
    if Uncut(q) {
      SplitFlat(q);
      BareShorter(q);
    }
  }

  /** A bound on the length of paths with leaves. */
  ghost function Deepest(t: Tree, keys: set<string>): (d: nat)
    requires t.Node? && keys <= t.children.Keys
    ensures forall p :: Lookup(t, p).Some? && p[0] in keys ==> |p| <= d
    decreases t, |keys|
  {
    if keys == {} then 0
    else
      var k :| k in keys;
      var c := t.children[k];
      var one := if c.Leaf? then 1 else 1 + Deepest(c, c.children.Keys);
      var rest := Deepest(t, keys - {k});
      if one > rest then one else rest
  }

  lemma {:induction false} NoUnclean(t: Tree, rows: Rows, order: seq<string>, p: Path)
    requires t.Node? && Imported(rows, map[], t, [])
    requires Keys(order) == rows.Keys && forall k :: k in order ==> k in rows
    requires Rebuild(Node(map[]), rows, order) == Some(PruneRoot(t))
    requires p != [] && Surviving(t, [], p).Some?
    ensures Clean(p)
    decreases Deepest(t, t.children.Keys) - |p|
  {
    if !Clean(p) {
      var q := LongerUnclean(t, rows, order, p);
      var r := LongerUnclean(t, rows, order, q);
      NoUnclean(t, rows, order, q);
    }
  }

  /** Importing any configuration into an empty table and exporting the rows, in whatever order they come, gives the
      same tree without its sensitive leaves and what they leave empty, exactly when no stored leaf has a name with a
      dot, or an empty name in front of others, on its path. */
  lemma RoundTripExact(t: Tree, rows: Rows, order: seq<string>)
    requires t.Node? && Imported(rows, map[], t, [])
    requires NoRepeats(order) && Keys(order) == rows.Keys && forall k :: k in order ==> k in rows
    ensures Rebuild(Node(map[]), rows, order) == Some(PruneRoot(t)) <==> AllClean(t)
  {
    if AllClean(t) {
      CleanRoundTrip(t, rows, order);
    }
    if Rebuild(Node(map[]), rows, order) == Some(PruneRoot(t)) {
      forall p | p != [] && Surviving(t, [], p).Some? ensures Clean(p) {
        NoUnclean(t, rows, order, p);
      }
    }
  }

  // ---------------------------------------------------------------- merging

  /** Two dicts merged: where both have a dict under a key these are merged, and else the overriding value wins. */
  function Merged(base: Tree, over: Tree): Tree
    requires base.Node? && over.Node?
    decreases over, 1
  {
    Node(map k | k in base.children.Keys + over.children.Keys ::
      if k in over.children then MergedAt(base, over, k) else base.children[k])
  }

  function MergedAt(base: Tree, over: Tree, k: string): Tree
    requires base.Node? && over.Node? && k in over.children
    decreases over, 0
  {
    var o := over.children[k];
    if k in base.children && base.children[k].Node? && o.Node? then Merged(base.children[k], o) else o
  }

  /** `_deep_merge`. */
  method DeepMerge(base: Tree, over: Tree) returns (result: Tree)
    requires base.Node? && over.Node?
    ensures result == Merged(base, over)
    decreases over, 2
  {
    var r := Overlay(base, over, Merged(base, over).children);
    result := Node(r);
  }

  /** The loop: the copy of the base with each value of the override put over it. */
  method Overlay(base: Tree, over: Tree, ghost want: map<string, Tree>) returns (r: map<string, Tree>)
    requires base.Node? && over.Node? && want.Keys == base.children.Keys + over.children.Keys
    requires forall k :: k in over.children ==> want[k] == MergedAt(base, over, k)
    requires forall k :: k in base.children && k !in over.children ==> want[k] == base.children[k]
    ensures r == want
    decreases over, 1
  {
    r := base.children;
    var todo := over.children.Keys;
    while todo != {}
      invariant todo <= over.children.Keys && r.Keys == base.children.Keys + (over.children.Keys - todo)
      invariant forall k :: k in r && k in todo ==> k in base.children && r[k] == base.children[k]
      invariant forall k :: k in r && k !in todo ==> r[k] == want[k]
      decreases |todo|
    {
      var k :| k in todo;
      var v := MergeAt(base, over, k, if k in r then Some(r[k]) else None);
      r := r[k := v];
      todo := todo - {k};
    }
  }

  /** The value under one key of the override; `was` is what the base has there. */
  method MergeAt(base: Tree, over: Tree, k: string, was: Option<Tree>) returns (v: Tree)
    requires base.Node? && over.Node? && k in over.children
    requires was == if k in base.children then Some(base.children[k]) else None
    ensures v == MergedAt(base, over, k)
    decreases over, 0
  {
    v := over.children[k];
    if was.Some? && was.value.Node? && v.Node? {
      v := DeepMerge(was.value, v);
    }
  }

  /** The tree says something about a path: a leaf stands on the way to it, or anything stands at it. */
  predicate Covers(t: Tree, p: Path) {
    match t
    case Leaf(_) => true
    case Node(m) => p == [] || (p[0] in m && Covers(m[p[0]], p[1..]))
  }

  lemma {:induction false} UncoveredHasNone(t: Tree, p: Path)
    ensures !Covers(t, p) ==> Lookup(t, p).None?
    decreases t
  {
    if t.Node? && p != [] && p[0] in t.children {
      UncoveredHasNone(t.children[p[0]], p[1..]);
    }
  }

  /** After a merge a path has the overriding leaf if there is one, the base's where the override says nothing, and
      else none: a leaf of the override hides what the base has below it, and a dict the leaf it stands on. */
  lemma {:induction false} MergedLookup(base: Tree, over: Tree, p: Path)
    requires base.Node? && over.Node?
    ensures Lookup(Merged(base, over), p) == if Covers(over, p) then Lookup(over, p) else Lookup(base, p)
    decreases over
  {
    if p != [] && p[0] in over.children && p[0] in base.children
       && base.children[p[0]].Node? && over.children[p[0]].Node? {
      MergedLookup(base.children[p[0]], over.children[p[0]], p[1..]);
    } else if p != [] && p[0] in over.children {
      if p[0] in base.children && !Covers(over.children[p[0]], p[1..]) {
        assert over.children[p[0]].Node? && p[1..] != [];
      }
      UncoveredHasNone(over, p);
    }
  }
}
