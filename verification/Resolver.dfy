/** Plugin load order, conflicts, missing plugins and cycles. */
module Resolver {
  import opened Folds
  import opened Ordering

  type Name = string

  datatype Dependency = Dependency(name: Name, constraint: string, optional: bool)

  datatype Metadata = Metadata(version: string, dependencies: seq<Dependency>, conflicts: seq<Name>)

  /** The dict passed to `resolve`: its keys in insertion order, and what they map to. */
  datatype Plugins = Plugins(names: seq<Name>, meta: map<Name, Metadata>)

  ghost predicate IsDict(p: Plugins) {
    && (forall n :: n in p.meta <==> n in p.names)
    && (forall i, j :: 0 <= i < j < |p.names| ==> p.names[i] != p.names[j])
  }

  datatype Error =
    | Conflict(name: Name, other: Name)
    | MissingOptional(name: Name, dep: Name)
    | MissingRequired(name: Name, dep: Name)
    | WrongVersion(name: Name, dep: Name, constraint: string, found: string)
    | Circular(remaining: seq<Name>)

  /** The names a plugin declares, in order, repeats kept. */
  function Declared(deps: seq<Dependency>): (r: seq<Name>)
    ensures |r| == |deps| && forall i :: 0 <= i < |deps| ==> r[i] == deps[i].name
  {
    seq(|deps|, i requires 0 <= i < |deps| => deps[i].name)
  }

  function Deps(p: Plugins, n: Name): seq<Name>
    requires n in p.meta
  {
    Declared(p.meta[n].dependencies)
  }

  /** `n` depends on the present plugin `d`, optionally or not. */
  predicate DependsOn(p: Plugins, n: Name, d: Name) {
    n in p.meta && d in p.meta && d in Deps(p, n)
  }

  // ---------------------------------------------------------------- walks and cycles

  /** A walk along dependency edges. */
  ghost predicate IsWalk(p: Plugins, w: seq<Name>) {
    && w != []
    && (forall i :: 0 <= i < |w| ==> w[i] in p.meta)
    && (forall i :: 0 <= i < |w| - 1 ==> DependsOn(p, w[i], w[i + 1]))
  }

  ghost predicate Revisits(w: seq<Name>) {
    exists i, j :: 0 <= i < j < |w| && w[i] == w[j]
  }

  /** The dependency edges of `n` lead into a cycle. */
  ghost predicate LeadsIntoCycle(p: Plugins, n: Name) {
    exists w :: IsWalk(p, w) && w[0] == n && Revisits(w)
  }

  ghost predicate HasCycle(p: Plugins) {
    exists n :: LeadsIntoCycle(p, n)
  }

  // ---------------------------------------------------------------- counters

  /** How many entries of `names` are among `pending`. */
  function Count(names: seq<Name>, pending: set<Name>): nat {
    if names == [] then 0 else (if names[0] in pending then 1 else 0) + Count(names[1..], pending)
  }

  lemma {:induction false} CountRemove(names: seq<Name>, pending: set<Name>, x: Name)
    requires x in pending
    ensures Count(names, pending - {x}) + Count(names, {x}) == Count(names, pending)
  {
    if names != [] {
      CountRemove(names[1..], pending, x);
      assert names == [names[0]] + names[1..];
    }
  }

  lemma {:induction false} CountZero(names: seq<Name>, pending: set<Name>)
    ensures Count(names, pending) == 0 <==> forall x :: x in names ==> x !in pending
  {
    if names != [] {
      CountZero(names[1..], pending);
      assert names == [names[0]] + names[1..];
    }
  }

  lemma {:induction false} CountSnoc(names: seq<Name>, x: Name, pending: set<Name>)
    ensures Count(names + [x], pending) == Count(names, pending) + (if x in pending then 1 else 0)
  {
    if names != [] {
      CountSnoc(names[1..], x, pending);
      assert (names + [x])[1..] == names[1..] + [x];
    }
  }

  lemma {:induction false} CountConcat(a: seq<Name>, b: seq<Name>, pending: set<Name>)
    ensures Count(a + b, pending) == Count(a, pending) + Count(b, pending)
  {
    if a == [] {
      assert a + b == b;
    } else {
      CountConcat(a[1..], b, pending);
      assert (a + b)[1..] == a[1..] + b;
    }
  }

  lemma TakeNext(names: seq<Name>, i: nat)
    requires i < |names|
    ensures forall n :: n in names[..i + 1] <==> n in names[..i] || n == names[i]
  {
    assert names[..i + 1] == names[..i] + [names[i]];
  }

  // ---------------------------------------------------------------- missing plugins

  /** `check_missing_dependencies` on one declaration. */
  function MissingReport(p: Plugins, name: Name, dep: Dependency): seq<Error> {
    if dep.name in p.meta then []
    else if dep.optional then [MissingOptional(name, dep.name)]
    else [MissingRequired(name, dep.name)]
  }

  function MissingIn(p: Plugins, name: Name, deps: seq<Dependency>): seq<Error> {
    Flat((d: Dependency) => MissingReport(p, name, d), deps)
  }

  function MissingOf(p: Plugins, name: Name): seq<Error> {
    if name in p.meta then MissingIn(p, name, p.meta[name].dependencies) else []
  }

  /** A report for every declaration of an absent plugin, in the order of the dict and of the declarations. */
  function MissingReports(p: Plugins): seq<Error> {
    Flat((n: Name) => MissingOf(p, n), p.names)
  }

  /** The inner loop. */
  method CheckMissingOf(p: Plugins, name: Name, deps: seq<Dependency>) returns (errors: seq<Error>)
    ensures errors == MissingIn(p, name, deps)
  {
    errors := [];
    ghost var f := (d: Dependency) => MissingReport(p, name, d);
    for j := 0 to |deps|
      invariant errors == Flat(f, deps[..j])
    {
      FlatNext(f, deps, j);
      assert errors + [] == errors;
      if deps[j].name !in p.meta {
        if deps[j].optional {
          errors := errors + [MissingOptional(name, deps[j].name)];
        } else {
          errors := errors + [MissingRequired(name, deps[j].name)];
        }
      }
    }
    assert deps[..|deps|] == deps;
  }

  /** `check_missing_dependencies`. */
  method CheckMissing(p: Plugins) returns (errors: seq<Error>)
    requires IsDict(p)
    ensures errors == MissingReports(p)
  {
    errors := [];
    ghost var f := (n: Name) => MissingOf(p, n);
    for i := 0 to |p.names|
      invariant errors == Flat(f, p.names[..i])
    {
      var name := p.names[i];
      var missing := CheckMissingOf(p, name, p.meta[name].dependencies);
      FlatNext(f, p.names, i);
      errors := errors + missing;
    }
    assert p.names[..|p.names|] == p.names;
  }

  /** `e` names a plugin and a dependency it declares that is not there, optional or not as declared. */
  ghost predicate IsMissing(p: Plugins, e: Error) {
    && (e.MissingOptional? || e.MissingRequired?)
    && e.name in p.meta && e.dep !in p.meta
    && exists d :: d in p.meta[e.name].dependencies && d.name == e.dep && d.optional == e.MissingOptional?
  }

  ghost predicate MissingExact(p: Plugins, errors: seq<Error>) {
    forall e: Error :: e.MissingOptional? || e.MissingRequired? ==> (e in errors <==> IsMissing(p, e))
  }

  lemma MissingOfExact(p: Plugins, name: Name, e: Error)
    requires name in p.meta
    ensures e in MissingOf(p, name) <==> IsMissing(p, e) && e.name == name
  {
    FlatMember((d: Dependency) => MissingReport(p, name, d), p.meta[name].dependencies, e);
  }

  lemma MissingReportsExact(p: Plugins, e: Error)
    requires IsDict(p)
    ensures e in MissingReports(p) <==> IsMissing(p, e)
  {
    FlatMember((n: Name) => MissingOf(p, n), p.names, e);
    forall n | n in p.names ensures e in MissingOf(p, n) <==> IsMissing(p, e) && e.name == n {
      MissingOfExact(p, n, e);
    }
  }

  // ---------------------------------------------------------------- conflicts

  /** `tuple(sorted([a, b]))`. */
  function Pair(a: Name, b: Name): (Name, Name) {
    if Le(a, b) then (a, b) else (b, a)
  }

  lemma PairUnordered(a: Name, b: Name, c: Name, d: Name)
    ensures Pair(a, b) == Pair(c, d) <==> (a == c && b == d) || (a == d && b == c)
  {
    LeTotal(a, b);
    if Le(a, b) && Le(b, a) {
      LeAntisymmetric(a, b);
    }
  }

  function Conflicts(p: Plugins, i: nat): seq<Name> {
    if i < |p.names| && p.names[i] in p.meta then p.meta[p.names[i]].conflicts else []
  }

  /** The `j`th conflict that the `i`th plugin declares is with a plugin that is there. */
  predicate Declares(p: Plugins, i: nat, j: nat) {
    i < |p.names| && j < |Conflicts(p, i)| && Conflicts(p, i)[j] in p.meta
  }

  function PairAt(p: Plugins, i: nat, j: nat): (Name, Name)
    requires Declares(p, i, j)
  {
    Pair(p.names[i], Conflicts(p, i)[j])
  }

  /** The pair is declared before the `j`th conflict of the `i`th plugin, by an earlier plugin or by this one. */
  ghost predicate SeenBefore(p: Plugins, i: nat, j: nat, pair: (Name, Name)) {
    exists k: nat, l: nat :: (k < i || (k == i && l < j)) && Declares(p, k, l) && PairAt(p, k, l) == pair
  }

  /** The `j`th conflict of the `i`th plugin is reported if it is the first of its pair. */
  ghost function ConflictReport(p: Plugins, i: nat, j: nat): seq<Error> {
    if Declares(p, i, j) && !SeenBefore(p, i, j, PairAt(p, i, j)) then [Conflict(p.names[i], Conflicts(p, i)[j])]
    else []
  }

  ghost function ConflictsUpTo(p: Plugins, i: nat, j: nat): seq<Error> {
    if j == 0 then [] else ConflictsUpTo(p, i, j - 1) + ConflictReport(p, i, j - 1)
  }

  ghost function ConflictReportsUpTo(p: Plugins, i: nat): seq<Error> {
    if i == 0 then [] else ConflictReportsUpTo(p, i - 1) + ConflictsUpTo(p, i - 1, |Conflicts(p, i - 1)|)
  }

  /** A report for every pair at its first declaration, in the order of the dict and of the declarations. */
  ghost function ConflictReports(p: Plugins): seq<Error> {
    ConflictReportsUpTo(p, |p.names|)
  }

  ghost predicate SeenExact(p: Plugins, i: nat, j: nat, seen: set<(Name, Name)>) {
    forall q :: q in seen <==> SeenBefore(p, i, j, q)
  }

  lemma SeenNext(p: Plugins, i: nat, j: nat, seen: set<(Name, Name)>)
    requires SeenExact(p, i, j, seen)
    ensures SeenExact(p, i, j + 1, if Declares(p, i, j) then seen + {PairAt(p, i, j)} else seen)
  {
  }

  lemma SeenAll(p: Plugins, i: nat, seen: set<(Name, Name)>)
    requires SeenExact(p, i, |Conflicts(p, i)|, seen)
    ensures SeenExact(p, i + 1, 0, seen)
  {
  }

  /** The inner loop: every conflict one plugin declares. */
  method PluginConflicts(p: Plugins, i: nat, seen0: set<(Name, Name)>)
    returns (errors: seq<Error>, seen: set<(Name, Name)>)
    requires IsDict(p) && i < |p.names| && SeenExact(p, i, 0, seen0)
    ensures errors == ConflictsUpTo(p, i, |Conflicts(p, i)|) && SeenExact(p, i, |Conflicts(p, i)|, seen)
  {
    errors, seen := [], seen0;
    var name := p.names[i];
    var conflicts := p.meta[name].conflicts;
    for j := 0 to |conflicts|
      invariant errors == ConflictsUpTo(p, i, j) && SeenExact(p, i, j, seen)
    {
      SeenNext(p, i, j, seen);
      assert errors + [] == errors;
      if conflicts[j] in p.meta {
        var pair := Pair(name, conflicts[j]);
        if pair !in seen {
          errors := errors + [Conflict(name, conflicts[j])];
        }
        seen := seen + {pair};
      }
    }
  }

  /** `check_conflicts`. */
  method CheckConflicts(p: Plugins) returns (errors: seq<Error>)
    requires IsDict(p)
    ensures errors == ConflictReports(p)
  {
    errors := [];
    var seen: set<(Name, Name)> := {};
    for i := 0 to |p.names|
      invariant errors == ConflictReportsUpTo(p, i) && SeenExact(p, i, 0, seen)
    {
      var more;
      more, seen := PluginConflicts(p, i, seen);
      SeenAll(p, i, seen);
      errors := errors + more;
    }
  }

  /** Two present plugins one of which declares a conflict with the other. */
  predicate Clash(p: Plugins, a: Name, b: Name) {
    a in p.meta && b in p.meta && (b in p.meta[a].conflicts || a in p.meta[b].conflicts)
  }

  /** A conflict is reported for just the clashing pairs. */
  ghost predicate ConflictsExact(p: Plugins, errors: seq<Error>) {
    forall a, b :: Clash(p, a, b) <==> Conflict(a, b) in errors || Conflict(b, a) in errors
  }

  /** No pair is reported twice. */
  ghost predicate OncePerPair(errors: seq<Error>) {
    forall i, j :: 0 <= i < j < |errors| && errors[i].Conflict? && errors[j].Conflict? ==>
      Pair(errors[i].name, errors[i].other) != Pair(errors[j].name, errors[j].other)
  }

  ghost predicate Names(errors: seq<Error>, pair: (Name, Name)) {
    exists k :: 0 <= k < |errors| && errors[k].Conflict? && Pair(errors[k].name, errors[k].other) == pair
  }

  /** `errors` are conflicts of different pairs, of just the pairs declared before a place. */
  ghost predicate PairsUpTo(p: Plugins, i: nat, j: nat, errors: seq<Error>) {
    && OncePerPair(errors)
    && (forall k :: 0 <= k < |errors| ==>
          errors[k].Conflict? && SeenBefore(p, i, j, Pair(errors[k].name, errors[k].other)))
    && (forall q :: SeenBefore(p, i, j, q) ==> Names(errors, q))
  }

  lemma NamesMore(errors: seq<Error>, more: seq<Error>, pair: (Name, Name))
    requires Names(errors, pair)
    ensures Names(errors + more, pair)
  {
    var k :| 0 <= k < |errors| && errors[k].Conflict? && Pair(errors[k].name, errors[k].other) == pair;
    assert (errors + more)[k] == errors[k];
  }

  lemma PairsNext(p: Plugins, i: nat, j: nat, errors: seq<Error>)
    requires PairsUpTo(p, i, j, errors)
    ensures PairsUpTo(p, i, j + 1, errors + ConflictReport(p, i, j))
  {
    if Declares(p, i, j) && !SeenBefore(p, i, j, PairAt(p, i, j)) {
      var more := ConflictReport(p, i, j);
      forall q | SeenBefore(p, i, j + 1, q) ensures Names(errors + more, q) {
        if SeenBefore(p, i, j, q) {
          NamesMore(errors, more, q);
        } else {
          assert (errors + more)[|errors|] == more[0];
        }
      }
    } else {
      assert errors + [] == errors;
      assert forall q :: SeenBefore(p, i, j + 1, q) <==> SeenBefore(p, i, j, q);
    }
  }

  lemma PairsNextOf(p: Plugins, i: nat, j: nat, errors: seq<Error>)
    requires j > 0 && PairsUpTo(p, i, j - 1, errors + ConflictsUpTo(p, i, j - 1))
    ensures PairsUpTo(p, i, j, errors + ConflictsUpTo(p, i, j))
  {
    PairsNext(p, i, j - 1, errors + ConflictsUpTo(p, i, j - 1));
    ConcatAssociates(errors, ConflictsUpTo(p, i, j - 1), ConflictReport(p, i, j - 1));
  }

  lemma PairsNoMore(p: Plugins, i: nat, errors: seq<Error>)
    requires PairsUpTo(p, i, 0, errors)
    ensures PairsUpTo(p, i, 0, errors + ConflictsUpTo(p, i, 0))
  {
    assert errors + [] == errors;
  }

  lemma {:induction false} PairsOfPlugin(p: Plugins, i: nat, j: nat, errors: seq<Error>)
    requires PairsUpTo(p, i, 0, errors)
    ensures PairsUpTo(p, i, j, errors + ConflictsUpTo(p, i, j))
  {
    if j == 0 {
      PairsNoMore(p, i, errors);
    } else {
      PairsOfPlugin(p, i, j - 1, errors);
      PairsNextOf(p, i, j, errors);
    }
  }

  lemma PairsAll(p: Plugins, i: nat, errors: seq<Error>)
    requires i > 0 && PairsUpTo(p, i - 1, |Conflicts(p, i - 1)|, errors)
    ensures PairsUpTo(p, i, 0, errors)
  {
    assert forall q :: SeenBefore(p, i - 1, |Conflicts(p, i - 1)|, q) <==> SeenBefore(p, i, 0, q);
  }

  lemma PairsNextAll(p: Plugins, i: nat)
    requires i > 0 && PairsUpTo(p, i - 1, 0, ConflictReportsUpTo(p, i - 1))
    ensures PairsUpTo(p, i, 0, ConflictReportsUpTo(p, i))
  {
    PairsOfPlugin(p, i - 1, |Conflicts(p, i - 1)|, ConflictReportsUpTo(p, i - 1));
    PairsAll(p, i, ConflictReportsUpTo(p, i));
  }

  lemma PairsNone(p: Plugins)
    ensures PairsUpTo(p, 0, 0, [])
  {
  }

  lemma {:induction false} PairsOfAll(p: Plugins, i: nat)
    ensures PairsUpTo(p, i, 0, ConflictReportsUpTo(p, i))
  {
    if i == 0 {
      PairsNone(p);
    } else {
      PairsOfAll(p, i - 1);
      PairsNextAll(p, i);
    }
  }

  lemma ClashSeen(p: Plugins, a: Name, b: Name)
    requires IsDict(p)
    ensures Clash(p, a, b) <==> SeenBefore(p, |p.names|, 0, Pair(a, b))
  {
    PairUnordered(a, b, b, a);
    if Clash(p, a, b) {
      var n, m := if b in p.meta[a].conflicts then a else b, if b in p.meta[a].conflicts then b else a;
      var k :| 0 <= k < |p.names| && p.names[k] == n;
      var l :| 0 <= l < |p.meta[n].conflicts| && p.meta[n].conflicts[l] == m;
      assert Declares(p, k, l) && PairAt(p, k, l) == Pair(a, b);
    }
    if SeenBefore(p, |p.names|, 0, Pair(a, b)) {
      var k: nat, l: nat :| k < |p.names| && Declares(p, k, l) && PairAt(p, k, l) == Pair(a, b);
      PairUnordered(p.names[k], Conflicts(p, k)[l], a, b);
    }
  }

  lemma NamedEither(errors: seq<Error>, a: Name, b: Name)
    ensures Names(errors, Pair(a, b)) <==> Conflict(a, b) in errors || Conflict(b, a) in errors
  {
    PairUnordered(a, b, b, a);
    if Names(errors, Pair(a, b)) {
      var k :| 0 <= k < |errors| && errors[k].Conflict? && Pair(errors[k].name, errors[k].other) == Pair(a, b);
      PairUnordered(errors[k].name, errors[k].other, a, b);
    }
  }

  /** Each clashing pair is reported, once, whichever side declares it, and no other pair is. */
  lemma ConflictReportsExact(p: Plugins)
    requires IsDict(p)
    ensures OncePerPair(ConflictReports(p)) && ConflictsExact(p, ConflictReports(p))
    ensures forall e :: e in ConflictReports(p) ==> e.Conflict?
  {
    var errors := ConflictReports(p);
    PairsOfAll(p, |p.names|);
    forall a, b ensures Clash(p, a, b) <==> Conflict(a, b) in errors || Conflict(b, a) in errors {
      ClashSeen(p, a, b);
      NamedEither(errors, a, b);
      PairUnordered(a, b, b, a);
    }
  }

  // ---------------------------------------------------------------- version errors

  function WrongReport(p: Plugins, satisfies: (string, string) -> bool, name: Name, dep: Dependency): seq<Error> {
    if dep.name in p.meta && dep.constraint != "" && !satisfies(p.meta[dep.name].version, dep.constraint)
    then [WrongVersion(name, dep.name, dep.constraint, p.meta[dep.name].version)]
    else []
  }

  /** The reports of the first `j` declarations. */
  function WrongIn(p: Plugins, satisfies: (string, string) -> bool, name: Name, deps: seq<Dependency>, j: nat)
    : seq<Error>
    requires j <= |deps|
  {
    if j == 0 then []
    else WrongIn(p, satisfies, name, deps, j - 1) + WrongReport(p, satisfies, name, deps[j - 1])
  }

  function WrongOf(p: Plugins, satisfies: (string, string) -> bool, name: Name): seq<Error> {
    if name in p.meta then
      WrongIn(p, satisfies, name, p.meta[name].dependencies, |p.meta[name].dependencies|)
    else []
  }

  function WrongUpTo(p: Plugins, satisfies: (string, string) -> bool, i: nat): seq<Error>
    requires i <= |p.names|
  {
    if i == 0 then [] else WrongUpTo(p, satisfies, i - 1) + WrongOf(p, satisfies, p.names[i - 1])
  }

  /** A report for every declaration whose constraint the present version does not meet, in order. */
  function WrongReports(p: Plugins, satisfies: (string, string) -> bool): seq<Error> {
    WrongUpTo(p, satisfies, |p.names|)
  }

  /** A declared version constraint that the present version does not meet. */
  ghost predicate IsMismatch(p: Plugins, satisfies: (string, string) -> bool, e: Error) {
    && e.WrongVersion? && e.name in p.meta && e.dep in p.meta && e.found == p.meta[e.dep].version
    && e.constraint != "" && !satisfies(e.found, e.constraint)
    && exists d :: d in p.meta[e.name].dependencies && d.name == e.dep && d.constraint == e.constraint
  }

  ghost predicate VersionsExact(p: Plugins, satisfies: (string, string) -> bool, errors: seq<Error>) {
    forall e: Error :: e.WrongVersion? ==> (e in errors <==> IsMismatch(p, satisfies, e))
  }

  /** `e` is the report of one of the first `j` declarations. */
  ghost predicate WrongFor(p: Plugins, satisfies: (string, string) -> bool, name: Name, deps: seq<Dependency>, j: nat,
                           e: Error)
    requires j <= |deps|
  {
    exists k :: 0 <= k < j && e in WrongReport(p, satisfies, name, deps[k])
  }

  lemma {:induction false} WrongInExact(p: Plugins, satisfies: (string, string) -> bool, name: Name,
                                        deps: seq<Dependency>, j: nat, e: Error)
    requires j <= |deps|
    ensures e in WrongIn(p, satisfies, name, deps, j) <==> WrongFor(p, satisfies, name, deps, j, e)
  {
    if j > 0 {
      WrongInExact(p, satisfies, name, deps, j - 1, e);
    }
  }

  lemma WrongForExact(p: Plugins, satisfies: (string, string) -> bool, name: Name, e: Error)
    requires name in p.meta
    ensures var deps := p.meta[name].dependencies;
      WrongFor(p, satisfies, name, deps, |deps|, e) <==> IsMismatch(p, satisfies, e) && e.name == name
  {
  }

  lemma WrongOfExact(p: Plugins, satisfies: (string, string) -> bool, name: Name, e: Error)
    requires name in p.meta
    ensures e in WrongOf(p, satisfies, name) <==> IsMismatch(p, satisfies, e) && e.name == name
  {
    var deps := p.meta[name].dependencies;
    WrongInExact(p, satisfies, name, deps, |deps|, e);
    WrongForExact(p, satisfies, name, e);
  }

  lemma {:induction false} WrongIsFlat(p: Plugins, satisfies: (string, string) -> bool, i: nat)
    requires i <= |p.names|
    ensures WrongUpTo(p, satisfies, i) == Flat((n: Name) => WrongOf(p, satisfies, n), p.names[..i])
  {
    if i > 0 {
      WrongIsFlat(p, satisfies, i - 1);
      FlatNext((n: Name) => WrongOf(p, satisfies, n), p.names, i - 1);
    }
  }

  lemma WrongReportsExact(p: Plugins, satisfies: (string, string) -> bool, e: Error)
    requires IsDict(p)
    ensures e in WrongReports(p, satisfies) <==> IsMismatch(p, satisfies, e)
  {
    WrongIsFlat(p, satisfies, |p.names|);
    assert p.names[..|p.names|] == p.names;
    FlatMember((n: Name) => WrongOf(p, satisfies, n), p.names, e);
    forall n | n in p.names ensures e in WrongOf(p, satisfies, n) <==> IsMismatch(p, satisfies, e) && e.name == n {
      WrongOfExact(p, satisfies, n, e);
    }
  }

  // ---------------------------------------------------------------- the graph

  ghost predicate Known(p: Plugins, names: seq<Name>) {
    forall n :: n in names ==> n in p.meta
  }

  function Entry(name: Name, d: Name, dep: Dependency): seq<Name> {
    if dep.name == d then [name] else []
  }

  /** A plugin once for each of its declarations of `d`. */
  function EntriesIn(name: Name, d: Name, deps: seq<Dependency>): seq<Name> {
    Flat((dep: Dependency) => Entry(name, d, dep), deps)
  }

  function EntriesOf(p: Plugins, d: Name, name: Name): seq<Name> {
    if name in p.meta then EntriesIn(name, d, p.meta[name].dependencies) else []
  }

  function DependentsIn(p: Plugins, d: Name, names: seq<Name>): seq<Name> {
    Flat((n: Name) => EntriesOf(p, d, n), names)
  }

  /** The adjacency list of `d`: in the order of the dict every plugin, once for each declaration of `d`. */
  function Dependents(p: Plugins, d: Name): seq<Name> {
    DependentsIn(p, d, p.names)
  }

  /** `in_degree` counts the declarations of present plugins, and `graph` has just the adjacency lists. */
  ghost predicate IsGraph(p: Plugins, inDegree: map<Name, int>, graph: map<Name, seq<Name>>) {
    && inDegree.Keys == p.meta.Keys && graph.Keys == p.meta.Keys
    && (forall n {:trigger inDegree[n]} :: n in p.meta ==> inDegree[n] == Count(Deps(p, n), p.meta.Keys))
    && (forall d {:trigger graph[d]} :: d in p.meta ==> graph[d] == Dependents(p, d))
  }

  datatype Graph = Graph(inDegree: map<Name, int>, out: map<Name, seq<Name>>)

  ghost predicate Covers(p: Plugins, g: Graph) {
    g.inDegree.Keys == p.meta.Keys && g.out.Keys == p.meta.Keys
  }

  /** One declaration: an absent plugin changes nothing. */
  ghost function AddEdge(p: Plugins, g: Graph, name: Name, dep: Dependency): (r: Graph)
    requires Covers(p, g) && name in p.meta
    ensures Covers(p, r)
  {
    if dep.name in p.meta then
      Graph(g.inDegree[name := g.inDegree[name] + 1], g.out[dep.name := g.out[dep.name] + [name]])
    else g
  }

  /** The first `j` declarations. */
  ghost function AddEdges(p: Plugins, g: Graph, name: Name, deps: seq<Dependency>, j: nat): (r: Graph)
    requires Covers(p, g) && name in p.meta && j <= |deps|
    ensures Covers(p, r)
  {
    if j == 0 then g else AddEdge(p, AddEdges(p, g, name, deps, j - 1), name, deps[j - 1])
  }

  ghost function AddAll(p: Plugins, g: Graph, name: Name): (r: Graph)
    requires Covers(p, g) && name in p.meta
    ensures Covers(p, r)
  {
    AddEdges(p, g, name, p.meta[name].dependencies, |p.meta[name].dependencies|)
  }

  function NoEdges(p: Plugins): (g: Graph)
    ensures Covers(p, g)
  {
    Graph(map n | n in p.meta :: 0, map n | n in p.meta :: [])
  }

  /** Counters and lists after the first `i` plugins. */
  ghost function GraphUpTo(p: Plugins, i: nat): (g: Graph)
    requires IsDict(p) && i <= |p.names|
    ensures Covers(p, g)
  {
    if i == 0 then NoEdges(p)
    else AddAll(p, GraphUpTo(p, i - 1), p.names[i - 1])
  }

  /** One round of the inner loop. */
  method AddDeclaration(p: Plugins, satisfies: (string, string) -> bool, name: Name, dep: Dependency,
                        inDegree0: map<Name, int>, graph0: map<Name, seq<Name>>, errors0: seq<Error>)
    returns (inDegree: map<Name, int>, graph: map<Name, seq<Name>>, errors: seq<Error>)
    requires name in p.meta && Covers(p, Graph(inDegree0, graph0))
    ensures Graph(inDegree, graph) == AddEdge(p, Graph(inDegree0, graph0), name, dep)
    ensures errors == errors0 + WrongReport(p, satisfies, name, dep)
  {
    inDegree, graph, errors := inDegree0, graph0, errors0;
    if dep.name in p.meta {
      if !dep.optional || dep.name in p.meta {
        var version := p.meta[dep.name].version;
        if dep.constraint != "" && !satisfies(version, dep.constraint) {
          errors := errors + [WrongVersion(name, dep.name, dep.constraint, version)];
        }
        graph := graph[dep.name := graph[dep.name] + [name]];
        inDegree := inDegree[name := inDegree[name] + 1];
      }
    }
  }

  /** The inner loop: every declaration of one plugin. */
  method AddDeclared(p: Plugins, satisfies: (string, string) -> bool, name: Name,
                     inDegree0: map<Name, int>, graph0: map<Name, seq<Name>>)
    returns (inDegree: map<Name, int>, graph: map<Name, seq<Name>>, errors: seq<Error>)
    requires name in p.meta && Covers(p, Graph(inDegree0, graph0))
    ensures Graph(inDegree, graph) == AddAll(p, Graph(inDegree0, graph0), name)
    ensures errors == WrongOf(p, satisfies, name)
  {
    inDegree, graph, errors := inDegree0, graph0, [];
    var deps := p.meta[name].dependencies;
    for j := 0 to |deps|
      invariant Graph(inDegree, graph) == AddEdges(p, Graph(inDegree0, graph0), name, deps, j)
      invariant errors == WrongIn(p, satisfies, name, deps, j)
    {
      inDegree, graph, errors := AddDeclaration(p, satisfies, name, deps[j], inDegree, graph, errors);
    }
  }

  /** One round of the outer loop. */
  method AddPlugin(p: Plugins, satisfies: (string, string) -> bool, i: nat,
                   inDegree0: map<Name, int>, graph0: map<Name, seq<Name>>, errors0: seq<Error>)
    returns (inDegree: map<Name, int>, graph: map<Name, seq<Name>>, errors: seq<Error>)
    requires IsDict(p) && i < |p.names|
    requires Graph(inDegree0, graph0) == GraphUpTo(p, i) && errors0 == WrongUpTo(p, satisfies, i)
    ensures Graph(inDegree, graph) == GraphUpTo(p, i + 1) && errors == WrongUpTo(p, satisfies, i + 1)
  {
    var wrong;
    inDegree, graph, wrong := AddDeclared(p, satisfies, p.names[i], inDegree0, graph0);
    errors := errors0 + wrong;
  }

  lemma EntriesNext(name: Name, d: Name, deps: seq<Dependency>, j: nat)
    requires j < |deps|
    ensures EntriesIn(name, d, deps[..j + 1]) == EntriesIn(name, d, deps[..j]) + Entry(name, d, deps[j])
  {
    FlatNext((dep: Dependency) => Entry(name, d, dep), deps, j);
  }

  lemma DeclareNext(deps: seq<Dependency>, j: nat, present: set<Name>)
    requires j < |deps|
    ensures Count(Declared(deps[..j + 1]), present)
         == Count(Declared(deps[..j]), present) + if deps[j].name in present then 1 else 0
  {
    assert Declared(deps[..j + 1]) == Declared(deps[..j]) + [deps[j].name];
    CountSnoc(Declared(deps[..j]), deps[j].name, present);
  }

  lemma AddEdgeExact(p: Plugins, g: Graph, name: Name, dep: Dependency, n: Name)
    requires Covers(p, g) && name in p.meta && n in p.meta
    ensures var r := AddEdge(p, g, name, dep);
      && r.inDegree[n] == g.inDegree[n] + (if n == name && dep.name in p.meta then 1 else 0)
      && r.out[n] == g.out[n] + Entry(name, n, dep)
  {
    assert g.out[n] + [] == g.out[n];
  }

  /** Counter and list of `n` once the first `j` declarations of `name` are added to `g`. */
  ghost predicate EdgesAdded(p: Plugins, g: Graph, r: Graph, name: Name, deps: seq<Dependency>, j: nat, n: Name)
    requires Covers(p, g) && Covers(p, r) && n in p.meta && j <= |deps|
  {
    && r.inDegree[n] == g.inDegree[n] + (if n == name then Count(Declared(deps[..j]), p.meta.Keys) else 0)
    && r.out[n] == g.out[n] + EntriesIn(name, n, deps[..j])
  }

  lemma EdgesNext(p: Plugins, g: Graph, r: Graph, name: Name, deps: seq<Dependency>, j: nat, n: Name)
    requires Covers(p, g) && Covers(p, r) && name in p.meta && n in p.meta && j < |deps|
    requires EdgesAdded(p, g, r, name, deps, j, n)
    ensures EdgesAdded(p, g, AddEdge(p, r, name, deps[j]), name, deps, j + 1, n)
  {
    AddEdgeExact(p, r, name, deps[j], n);
    EntriesNext(name, n, deps, j);
    DeclareNext(deps, j, p.meta.Keys);
    ConcatAssociates(g.out[n], EntriesIn(name, n, deps[..j]), Entry(name, n, deps[j]));
  }

  lemma {:induction false} AddEdgesExact(p: Plugins, g: Graph, name: Name, deps: seq<Dependency>, j: nat, n: Name)
    requires Covers(p, g) && name in p.meta && n in p.meta && j <= |deps|
    ensures EdgesAdded(p, g, AddEdges(p, g, name, deps, j), name, deps, j, n)
  {
    if j == 0 {
      assert g.out[n] + [] == g.out[n];
    } else {
      AddEdgesExact(p, g, name, deps, j - 1, n);
      EdgesNext(p, g, AddEdges(p, g, name, deps, j - 1), name, deps, j - 1, n);
    }
  }

  lemma AddAllExact(p: Plugins, g: Graph, name: Name, n: Name)
    requires Covers(p, g) && name in p.meta && n in p.meta
    ensures var r := AddAll(p, g, name);
      && r.inDegree[n] == g.inDegree[n] + (if n == name then Count(Deps(p, name), p.meta.Keys) else 0)
      && r.out[n] == g.out[n] + EntriesOf(p, n, name)
  {
    var deps := p.meta[name].dependencies;
    AddEdgesExact(p, g, name, deps, |deps|, n);
    assert deps[..|deps|] == deps;
  }

  lemma {:induction false} GraphUpToExact(p: Plugins, i: nat, n: Name)
    requires IsDict(p) && i <= |p.names| && n in p.meta
    ensures GraphUpTo(p, i).inDegree[n] == if n in p.names[..i] then Count(Deps(p, n), p.meta.Keys) else 0
    ensures GraphUpTo(p, i).out[n] == DependentsIn(p, n, p.names[..i])
  {
    if i > 0 {
      GraphUpToExact(p, i - 1, n);
      AddAllExact(p, GraphUpTo(p, i - 1), p.names[i - 1], n);
      FlatNext((m: Name) => EntriesOf(p, n, m), p.names, i - 1);
      TakeNext(p.names, i - 1);
      assert p.names[i - 1] !in p.names[..i - 1];
    }
  }

  lemma AllAdded(p: Plugins)
    requires IsDict(p)
    ensures var g := GraphUpTo(p, |p.names|); IsGraph(p, g.inDegree, g.out)
  {
    var g := GraphUpTo(p, |p.names|);
    assert p.names[..|p.names|] == p.names;
    forall n | n in p.meta ensures g.inDegree[n] == Count(Deps(p, n), p.meta.Keys) && g.out[n] == Dependents(p, n) {
      GraphUpToExact(p, |p.names|, n);
    }
  }

  method BuildGraph(p: Plugins, satisfies: (string, string) -> bool)
    returns (inDegree: map<Name, int>, graph: map<Name, seq<Name>>, errors: seq<Error>)
    requires IsDict(p)
    ensures IsGraph(p, inDegree, graph) && errors == WrongReports(p, satisfies)
  {
    inDegree, graph, errors := NoEdges(p).inDegree, NoEdges(p).out, [];
    for i := 0 to |p.names|
      invariant Graph(inDegree, graph) == GraphUpTo(p, i) && errors == WrongUpTo(p, satisfies, i)
    {
      inDegree, graph, errors := AddPlugin(p, satisfies, i, inDegree, graph, errors);
    }
    AllAdded(p);
  }

  lemma {:induction false} EntriesCount(name: Name, d: Name, deps: seq<Dependency>, n: Name)
    ensures Count(EntriesIn(name, d, deps), {n}) == if n == name then Count(Declared(deps), {d}) else 0
    ensures forall m :: m in EntriesIn(name, d, deps) ==> m == name
  {
    if deps != [] {
      EntriesCount(name, d, deps[1..], n);
      CountConcat(Entry(name, d, deps[0]), EntriesIn(name, d, deps[1..]), {n});
      assert Declared(deps)[1..] == Declared(deps[1..]);
    }
  }

  ghost predicate NoRepeats(s: seq<Name>) {
    forall i, j :: 0 <= i < j < |s| ==> s[i] != s[j]
  }

  lemma {:induction false} DependentsCount(p: Plugins, d: Name, names: seq<Name>, n: Name)
    requires NoRepeats(names) && Known(p, names) && n in p.meta
    ensures Count(DependentsIn(p, d, names), {n}) == if n in names then Count(Deps(p, n), {d}) else 0
    ensures Known(p, DependentsIn(p, d, names))
  {
    if names != [] {
      DependentsCount(p, d, names[1..], n);
      EntriesCount(names[0], d, p.meta[names[0]].dependencies, n);
      CountConcat(EntriesOf(p, d, names[0]), DependentsIn(p, d, names[1..]), {n});
      assert names == [names[0]] + names[1..];
    }
  }

  /** `n` is in the list of `d` as often as `d` is among the declarations of `n`. */
  lemma Balanced(p: Plugins, inDegree: map<Name, int>, graph: map<Name, seq<Name>>, d: Name, n: Name)
    requires IsDict(p) && IsGraph(p, inDegree, graph) && d in p.meta && n in p.meta
    ensures Count(graph[d], {n}) == Count(Deps(p, n), {d}) && Known(p, graph[d])
  {
    DependentsCount(p, d, p.names, n);
  }

  // ---------------------------------------------------------------- Kahn's algorithm

  ghost function Pending(p: Plugins, order: seq<Name>): set<Name> {
    set n | n in p.meta && n !in order
  }

  /** Every plugin of the order comes after each present plugin it declares. */
  ghost predicate DepsFirst(p: Plugins, order: seq<Name>) {
    forall i, d :: 0 <= i < |order| && DependsOn(p, order[i], d) ==> d in order[..i]
  }

  /** `in_degree[n]` counts the declarations of `n` still pending plus the decrements still to come from
      `extra`; it is zero just for the plugins ordered or queued. */
  ghost predicate Frontier(p: Plugins, pending: set<Name>, extra: seq<Name>, inDegree: map<Name, int>, line: seq<Name>)
  {
    && inDegree.Keys == p.meta.Keys
    && (forall n {:trigger inDegree[n]} :: n in p.meta ==>
          inDegree[n] == Count(Deps(p, n), pending) + Count(extra, {n}))
    && (forall n {:trigger inDegree[n]} :: n in p.meta ==> (inDegree[n] == 0 <==> n in line))
    && Known(p, line) && NoRepeats(line)
  }

  /** Taking `current` off the pending plugins leaves one decrement to come for each entry of its list. */
  lemma PopCounts(p: Plugins, pending: set<Name>, current: Name, inDegree0: map<Name, int>,
                  graph: map<Name, seq<Name>>, n: Name)
    requires IsDict(p) && IsGraph(p, inDegree0, graph) && current in pending && current in p.meta && n in p.meta
    ensures Count(Deps(p, n), pending) == Count(Deps(p, n), pending - {current}) + Count(graph[current], {n})
  {
    CountRemove(Deps(p, n), pending, current);
    Balanced(p, inDegree0, graph, current, n);
  }

  lemma PopOrder(p: Plugins, order: seq<Name>, current: Name)
    requires DepsFirst(p, order) && current in p.meta && Count(Deps(p, current), Pending(p, order)) == 0
    ensures DepsFirst(p, order + [current])
  {
    var longer := order + [current];
    CountZero(Deps(p, current), Pending(p, order));
    forall i, d | 0 <= i < |longer| && DependsOn(p, longer[i], d) ensures d in longer[..i] {
      if i < |order| {
        assert longer[..i] == order[..i];
      } else {
        assert longer[..i] == order;
      }
    }
  }

  lemma Pop(p: Plugins, order: seq<Name>, queue: seq<Name>, inDegree0: map<Name, int>, inDegree: map<Name, int>,
            graph: map<Name, seq<Name>>)
    requires IsDict(p) && IsGraph(p, inDegree0, graph)
    requires queue != [] && Frontier(p, Pending(p, order), [], inDegree, order + queue) && DepsFirst(p, order)
    ensures Frontier(p, Pending(p, order + [queue[0]]), graph[queue[0]], inDegree, order + [queue[0]] + queue[1..])
    ensures DepsFirst(p, order + [queue[0]]) && Known(p, graph[queue[0]])
    ensures Pending(p, order + [queue[0]]) < Pending(p, order)
  {
    var current, rest := queue[0], order + [queue[0]];
    assert rest + queue[1..] == order + queue;
    assert (order + queue)[|order|] == current;
    assert forall i :: 0 <= i < |order| ==> (order + queue)[i] == order[i];
    assert current in Pending(p, order);
    assert Pending(p, rest) == Pending(p, order) - {current};
    forall n | n in p.meta
      ensures inDegree[n] == Count(Deps(p, n), Pending(p, rest)) + Count(graph[current], {n})
    {
      PopCounts(p, Pending(p, order), current, inDegree0, graph, n);
    }
    assert inDegree[current] == 0;
    PopOrder(p, order, current);
    Balanced(p, inDegree0, graph, current, current);
  }

  /** One round of the inner loop. */
  lemma Decrement(p: Plugins, pending: set<Name>, extra: seq<Name>, inDegree: map<Name, int>, line: seq<Name>)
    requires Frontier(p, pending, extra, inDegree, line) && extra != [] && extra[0] in p.meta
    ensures var d := extra[0]; var left := inDegree[d] - 1;
            Frontier(p, pending, extra[1..], inDegree[d := left], if left == 0 then line + [d] else line)
  {
    var d := extra[0];
    assert inDegree[d] > 0;
    assert forall n :: n != d ==> Count(extra, {n}) == Count(extra[1..], {n});
  }

  /** The inner loop: one decrement for every dependent. */
  method Relax(p: Plugins, ghost order: seq<Name>, dependents: seq<Name>, inDegree0: map<Name, int>, queue0: seq<Name>)
    returns (inDegree: map<Name, int>, queue: seq<Name>)
    requires Known(p, dependents) && Frontier(p, Pending(p, order), dependents, inDegree0, order + queue0)
    ensures Frontier(p, Pending(p, order), [], inDegree, order + queue)
  {
    inDegree, queue := inDegree0, queue0;
    assert dependents[0..] == dependents;
    for j := 0 to |dependents|
      invariant Frontier(p, Pending(p, order), dependents[j..], inDegree, order + queue)
    {
      var d := dependents[j];
      assert dependents[j..][0] == d && dependents[j..][1..] == dependents[j + 1..];
      Decrement(p, Pending(p, order), dependents[j..], inDegree, order + queue);
      inDegree := inDegree[d := inDegree[d] - 1];
      if inDegree[d] == 0 {
        assert order + queue + [d] == order + (queue + [d]);
        queue := queue + [d];
      }
    }
    assert dependents[|dependents|..] == [];
  }

  /** The first loop: queue the plugins without present dependencies. */
  method Roots(p: Plugins, inDegree: map<Name, int>) returns (queue: seq<Name>)
    requires IsDict(p) && inDegree.Keys == p.meta.Keys
    ensures Known(p, queue) && NoRepeats(queue)
    ensures forall n :: n in queue <==> n in p.names && inDegree[n] == 0
  {
    queue := [];
    for i := 0 to |p.names|
      invariant Known(p, queue) && NoRepeats(queue)
      invariant forall n :: n in queue <==> n in p.names[..i] && inDegree[n] == 0
    {
      TakeNext(p.names, i);
      assert p.names[i] !in p.names[..i];
      if inDegree[p.names[i]] == 0 {
        queue := queue + [p.names[i]];
      }
    }
    assert p.names[..|p.names|] == p.names;
  }

  lemma RootsFrontier(p: Plugins, inDegree: map<Name, int>, graph: map<Name, seq<Name>>, queue: seq<Name>)
    requires IsDict(p) && IsGraph(p, inDegree, graph) && Known(p, queue) && NoRepeats(queue)
    requires forall n :: n in queue <==> n in p.names && inDegree[n] == 0
    ensures Frontier(p, Pending(p, []), [], inDegree, queue)
  {
    assert Pending(p, []) == p.meta.Keys;
    forall n | n in p.meta ensures inDegree[n] == Count(Deps(p, n), Pending(p, [])) + Count([], {n}) {
    }
  }

  /** A declared present dependency of `n` is not in the order. */
  ghost predicate LacksOne(p: Plugins, order: seq<Name>, n: Name) {
    exists d :: DependsOn(p, n, d) && d !in order
  }

  ghost predicate EachLacksOne(p: Plugins, order: seq<Name>) {
    forall n :: n in p.meta && n !in order ==> LacksOne(p, order, n)
  }

  lemma Exhausted(p: Plugins, order: seq<Name>, inDegree: map<Name, int>)
    requires Frontier(p, Pending(p, order), [], inDegree, order)
    ensures EachLacksOne(p, order)
  {
    forall n | n in p.meta && n !in order ensures LacksOne(p, order, n) {
      assert inDegree[n] != 0;
      CountZero(Deps(p, n), Pending(p, order));
      var d :| d in Deps(p, n) && d in Pending(p, order);
      assert DependsOn(p, n, d);
    }
  }

  method Kahn(p: Plugins, inDegree0: map<Name, int>, graph: map<Name, seq<Name>>) returns (order: seq<Name>)
    requires IsDict(p) && IsGraph(p, inDegree0, graph)
    ensures NoRepeats(order) && Known(p, order) && DepsFirst(p, order)
    ensures EachLacksOne(p, order)
  {
    var inDegree := inDegree0;
    var queue := Roots(p, inDegree);
    RootsFrontier(p, inDegree, graph, queue);
    order := [];
    assert order + queue == queue;
    while queue != []
      invariant Frontier(p, Pending(p, order), [], inDegree, order + queue)
      invariant DepsFirst(p, order)
      decreases Pending(p, order)
    {
      Pop(p, order, queue, inDegree0, inDegree, graph);
      var current := queue[0];
      order, queue := order + [current], queue[1..];
      inDegree, queue := Relax(p, order, graph[current], inDegree, queue);
    }
    assert order + queue == order;
    Exhausted(p, order, inDegree);
  }

  // ---------------------------------------------------------------- what is left out of the order

  ghost function IndexOf(s: seq<Name>, x: Name): (k: nat)
    requires x in s
    ensures k < |s| && s[k] == x && forall i :: 0 <= i < k ==> s[i] != x
  {
    if s[0] == x then 0 else
      assert s == [s[0]] + s[1..];
      IndexOf(s[1..], x) + 1
  }

  lemma EarlierIndex(s: seq<Name>, k: nat, x: Name)
    requires k <= |s| && x in s[..k]
    ensures x in s && IndexOf(s, x) < k
  {
    var i :| 0 <= i < k && s[i] == x;
  }

  /** Along a walk that starts in the order, positions in the order fall. */
  lemma {:induction false} WalkDescends(p: Plugins, order: seq<Name>, w: seq<Name>, i: nat, j: nat)
    requires Known(p, order) && DepsFirst(p, order) && IsWalk(p, w) && w[0] in order && i < j < |w|
    ensures w[i] in order && w[j] in order && IndexOf(order, w[j]) < IndexOf(order, w[i])
    decreases j
  {
    if j > 1 {
      WalkDescends(p, order, w, if i < j - 1 then i else j - 2, j - 1);
    }
    var k := IndexOf(order, w[j - 1]);
    assert DependsOn(p, order[k], w[j]);
    EarlierIndex(order, k, w[j]);
  }

  /** Outside the order one can walk on for ever. */
  lemma {:induction false} EndlessWalk(p: Plugins, order: seq<Name>, n: Name, length: nat) returns (w: seq<Name>)
    requires n in p.meta && n !in order && length > 0
    requires EachLacksOne(p, order)
    ensures IsWalk(p, w) && w[0] == n && |w| == length
    decreases length
  {
    if length == 1 {
      w := [n];
    } else {
      assert LacksOne(p, order, n);
      var d :| DependsOn(p, n, d) && d !in order;
      var rest := EndlessWalk(p, order, d, length - 1);
      w := [n] + rest;
    }
  }

  lemma {:induction false} Pigeonhole(w: seq<Name>, s: set<Name>)
    requires (forall i :: 0 <= i < |w| ==> w[i] in s) && |w| > |s|
    ensures Revisits(w)
  {
    if w[0] in w[1..] {
      var j :| 0 <= j < |w[1..]| && w[1..][j] == w[0];
      assert w[j + 1] == w[0];
    } else {
      forall i | 0 <= i < |w[1..]| ensures w[1..][i] in s - {w[0]} {
        assert w[1..][i] in w[1..];
      }
      Pigeonhole(w[1..], s - {w[0]});
      var i, j :| 0 <= i < j < |w[1..]| && w[1..][i] == w[1..][j];
      assert w[i + 1] == w[j + 1];
    }
  }

  /** The order holds a plugin just when its dependency edges do not lead into a cycle. */
  lemma OrderedIffAcyclic(p: Plugins, order: seq<Name>, n: Name)
    requires Known(p, order) && DepsFirst(p, order) && n in p.meta
    requires EachLacksOne(p, order)
    ensures n in order <==> !LeadsIntoCycle(p, n)
  {
    if n in order {
      forall w | IsWalk(p, w) && w[0] == n ensures !Revisits(w) {
        forall i, j | 0 <= i < j < |w| ensures w[i] != w[j] {
          WalkDescends(p, order, w, i, j);
        }
      }
    } else {
      var w := EndlessWalk(p, order, n, |p.meta.Keys| + 1);
      Pigeonhole(w, p.meta.Keys);
    }
  }

  // ---------------------------------------------------------------- resolve

  /** The plugins left over, in the order of the dict. */
  function Leftover(names: seq<Name>, order: seq<Name>): (r: seq<Name>)
    ensures forall n :: n in r <==> n in names && n !in order
  {
    if names == [] then []
    else
      assert names == [names[0]] + names[1..];
      (if names[0] in order then [] else [names[0]]) + Leftover(names[1..], order)
  }

  /** `e` is the report of a cycle: it names, sorted, the plugins whose dependencies lead into one. */
  ghost predicate ReportsCycle(p: Plugins, e: Error) {
    && e.Circular? && Ascending(e.remaining) && e.remaining != []
    && forall n :: n in e.remaining <==> n in p.meta && LeadsIntoCycle(p, n)
  }

  /** A cycle is reported if and only if there is one, and names what leads into one. */
  ghost predicate CyclesExact(p: Plugins, errors: seq<Error>) {
    && (HasCycle(p) <==> exists e :: e in errors && e.Circular?)
    && (forall e :: e in errors && e.Circular? ==> ReportsCycle(p, e))
  }

  /** The order holds just the plugins that do not lead into a cycle. */
  ghost predicate OrderExact(p: Plugins, order: seq<Name>) {
    forall n :: n in order <==> n in p.meta && !LeadsIntoCycle(p, n)
  }

  /** The last step of `resolve`. */
  function CycleErrors(p: Plugins, order: seq<Name>): (errors: seq<Error>)
    ensures forall e :: e in errors ==> e.Circular?
  {
    if |order| < |p.names| then [Circular(SortedSet(Leftover(p.names, order)))] else []
  }

  lemma OneCycleReport(p: Plugins, remaining: seq<Name>, sorted: seq<Name>)
    requires remaining != [] && HasCycle(p) && Ascending(sorted)
    requires forall n :: n in remaining <==> n in p.meta && LeadsIntoCycle(p, n)
    requires forall n :: n in sorted <==> n in remaining
    ensures CyclesExact(p, [Circular(sorted)])
  {
    var e := Circular(sorted);
    assert remaining[0] in sorted;
    assert ReportsCycle(p, e);
    assert e in [e];
  }

  lemma StartsPresent(p: Plugins, n: Name)
    requires LeadsIntoCycle(p, n)
    ensures n in p.meta
  {
  }

  /** What is left over leads into a cycle, and there is a cycle just when something is left over. */
  lemma LeftoverLeads(p: Plugins, order: seq<Name>)
    requires IsDict(p) && OrderExact(p, order)
    ensures forall n :: n in Leftover(p.names, order) <==> n in p.meta && LeadsIntoCycle(p, n)
    ensures Leftover(p.names, order) != [] <==> HasCycle(p)
  {
    var remaining := Leftover(p.names, order);
    if remaining != [] {
      assert remaining[0] in remaining;
      assert LeadsIntoCycle(p, remaining[0]);
    } else {
      forall n ensures !LeadsIntoCycle(p, n) {
        if LeadsIntoCycle(p, n) {
          StartsPresent(p, n);
        }
      }
    }
  }

  lemma CycleErrorsExact(p: Plugins, order: seq<Name>)
    requires IsDict(p) && OrderExact(p, order)
    requires |order| < |p.names| <==> Leftover(p.names, order) != []
    ensures CyclesExact(p, CycleErrors(p, order))
  {
    LeftoverLeads(p, order);
    if |order| < |p.names| {
      OneCycleReport(p, Leftover(p.names, order), SortedSet(Leftover(p.names, order)));
    }
  }

  lemma SetSizes(a: set<Name>, b: set<Name>)
    requires a <= b
    ensures |a| <= |b|
  {
    assert b == a + (b - a);
  }

  ghost function Elements(s: seq<Name>): (r: set<Name>)
    requires NoRepeats(s)
    ensures |r| == |s| && forall n :: n in r <==> n in s
  {
    if s == [] then {} else
      assert s == [s[0]] + s[1..];
      var rest := Elements(s[1..]);
      rest + {s[0]}
  }

  /** A list without repeats taken from `names` is shorter just when it misses one. */
  lemma SizesTell(names: seq<Name>, order: seq<Name>)
    requires NoRepeats(names) && NoRepeats(order) && forall n :: n in order ==> n in names
    ensures |order| < |names| <==> Leftover(names, order) != []
  {
    var all, got := Elements(names), Elements(order);
    if |order| < |names| {
      var n :| n in all && n !in got by {
        if all <= got {
          SetSizes(all, got);
        }
      }
      assert n in Leftover(names, order);
    } else if Leftover(names, order) != [] {
      var n := Leftover(names, order)[0];
      assert n in Leftover(names, order);
      assert got <= all - {n};
      SetSizes(got, all - {n});
    }
  }

  lemma CycleReport(p: Plugins, order: seq<Name>)
    requires IsDict(p) && NoRepeats(order) && Known(p, order) && DepsFirst(p, order) && EachLacksOne(p, order)
    ensures OrderExact(p, order) && CyclesExact(p, CycleErrors(p, order))
  {
    forall n ensures n in order <==> n in p.meta && !LeadsIntoCycle(p, n) {
      if n in p.meta {
        OrderedIffAcyclic(p, order, n);
      }
    }
    SizesTell(p.names, order);
    CycleErrorsExact(p, order);
  }

  lemma SameCycles(p: Plugins, others: seq<Error>, circular: seq<Error>)
    requires CyclesExact(p, circular) && forall e :: e in others ==> !e.Circular?
    ensures CyclesExact(p, others + circular)
  {
    if HasCycle(p) {
      var e :| e in circular && e.Circular?;
      assert e in others + circular;
    }
  }

  lemma SameConflicts(p: Plugins, clashes: seq<Error>, others: seq<Error>)
    requires ConflictsExact(p, clashes) && OncePerPair(clashes) && forall e :: e in others ==> !e.Conflict?
    ensures ConflictsExact(p, clashes + others) && OncePerPair(clashes + others)
  {
    assert forall k :: |clashes| <= k < |clashes + others| ==> (clashes + others)[k] in others;
  }

  /** Reports of different kinds do not disturb each other. */
  lemma JoinReports(p: Plugins, satisfies: (string, string) -> bool,
                    clashes: seq<Error>, missing: seq<Error>, wrong: seq<Error>, circular: seq<Error>)
    requires OncePerPair(clashes) && ConflictsExact(p, clashes) && forall e :: e in clashes ==> e.Conflict?
    requires forall e :: e in missing <==> IsMissing(p, e)
    requires forall e :: e in wrong <==> IsMismatch(p, satisfies, e)
    requires (forall e :: e in circular ==> e.Circular?) && CyclesExact(p, circular)
    ensures var errors := clashes + missing + wrong + circular;
      && OncePerPair(errors) && ConflictsExact(p, errors) && MissingExact(p, errors)
      && VersionsExact(p, satisfies, errors) && CyclesExact(p, errors)
  {
    SameConflicts(p, clashes, missing + wrong + circular);
    assert clashes + missing + wrong + circular == clashes + (missing + wrong + circular);
    SameCycles(p, clashes + missing + wrong, circular);
  }

  /** What all the reports say, kind by kind. */
  lemma AllReports(p: Plugins, satisfies: (string, string) -> bool, circular: seq<Error>)
    requires IsDict(p) && (forall e :: e in circular ==> e.Circular?) && CyclesExact(p, circular)
    ensures var errors := ConflictReports(p) + MissingReports(p) + WrongReports(p, satisfies) + circular;
      && OncePerPair(errors) && ConflictsExact(p, errors) && MissingExact(p, errors)
      && VersionsExact(p, satisfies, errors) && CyclesExact(p, errors)
  {
    ConflictReportsExact(p);
    forall e ensures e in MissingReports(p) <==> IsMissing(p, e) {
      MissingReportsExact(p, e);
    }
    forall e ensures e in WrongReports(p, satisfies) <==> IsMismatch(p, satisfies, e) {
      WrongReportsExact(p, satisfies, e);
    }
    JoinReports(p, satisfies, ConflictReports(p), MissingReports(p), WrongReports(p, satisfies), circular);
  }

  /** `resolve`: a load order in which dependencies come first, of just the plugins that do not lead into a
      cycle, and all reports in order, a circular-dependency error if and only if there is a cycle. `satisfies` is
      `satisfies_version`. */
  method Resolve(p: Plugins, satisfies: (string, string) -> bool) returns (order: seq<Name>, errors: seq<Error>)
    requires IsDict(p)
    ensures NoRepeats(order) && DepsFirst(p, order) && OrderExact(p, order)
    ensures errors == ConflictReports(p) + MissingReports(p) + WrongReports(p, satisfies) + CycleErrors(p, order)
    ensures OncePerPair(errors) && ConflictsExact(p, errors) && MissingExact(p, errors)
    ensures VersionsExact(p, satisfies, errors) && CyclesExact(p, errors)
  {
    var clashes := CheckConflicts(p);
    var missing := CheckMissing(p);
    var inDegree, graph, wrong := BuildGraph(p, satisfies);
    order := Kahn(p, inDegree, graph);
    CycleReport(p, order);
    var circular := CycleErrors(p, order);
    AllReports(p, satisfies, circular);
    errors := clashes + missing + wrong + circular;
  }

  // ---------------------------------------------------------------- how often and how a report is made

  /** A conflict report is that of a declaration which is the first of its pair. */
  ghost predicate ReportOf(p: Plugins, i: nat, j: nat, e: Error) {
    Declares(p, i, j) && !SeenBefore(p, i, j, PairAt(p, i, j)) && e == Conflict(p.names[i], Conflicts(p, i)[j])
  }

  lemma {:induction false} ConflictsFrom(p: Plugins, i: nat, j: nat, e: Error)
    requires e in ConflictsUpTo(p, i, j)
    ensures exists l: nat :: ReportOf(p, i, l, e)
  {
    if e in ConflictReport(p, i, j - 1) {
      assert ReportOf(p, i, j - 1, e);
    } else {
      ConflictsFrom(p, i, j - 1, e);
    }
  }

  lemma {:induction false} ReportsFrom(p: Plugins, i: nat, e: Error)
    requires e in ConflictReportsUpTo(p, i)
    ensures exists k: nat, l: nat :: ReportOf(p, k, l, e)
  {
    if e in ConflictsUpTo(p, i - 1, |Conflicts(p, i - 1)|) {
      ConflictsFrom(p, i - 1, |Conflicts(p, i - 1)|, e);
    } else {
      ReportsFrom(p, i - 1, e);
    }
  }

  /** A conflict report names first a plugin that declares the conflict, and if both do, the one that comes first. */
  lemma DeclarerFirst(p: Plugins, a: Name, b: Name)
    requires IsDict(p) && Conflict(a, b) in ConflictReports(p)
    ensures a in p.meta && b in p.meta && b in p.meta[a].conflicts
    ensures a in p.meta[b].conflicts ==>
      forall i, k :: 0 <= i < |p.names| && 0 <= k < |p.names| && p.names[i] == a && p.names[k] == b ==> i <= k
  {
    ReportsFrom(p, |p.names|, Conflict(a, b));
    var i: nat, j: nat :| ReportOf(p, i, j, Conflict(a, b));
    forall k | 0 <= k < |p.names| && p.names[k] == b && a in p.meta[b].conflicts ensures i <= k {
      var l :| 0 <= l < |p.meta[b].conflicts| && p.meta[b].conflicts[l] == a;
      PairUnordered(a, b, b, a);
      assert Declares(p, k, l) && PairAt(p, k, l) == PairAt(p, i, j);
    }
  }

  /** A missing dependency is reported as often as it is declared. */
  lemma MissingTimes(p: Plugins, e: Error)
    requires IsDict(p) && (e.MissingOptional? || e.MissingRequired?) && e.name in p.meta && e.dep !in p.meta
    ensures multiset(MissingReports(p))[e]
         == HowMany((d: Dependency) => d.name == e.dep && d.optional == e.MissingOptional?, p.meta[e.name].dependencies)
  {
    var f := (n: Name) => MissingOf(p, n);
    var g := (d: Dependency) => MissingReport(p, e.name, d);
    forall n | n != e.name ensures e !in f(n) {
      if n in p.meta {
        MissingOfExact(p, n, e);
      }
    }
    FlatTimes(f, p.names, e.name, e);
    FlatHowMany(g, (d: Dependency) => d.name == e.dep && d.optional == e.MissingOptional?,
                p.meta[e.name].dependencies, e);
    assert MissingOf(p, e.name) == Flat(g, p.meta[e.name].dependencies);
  }

  lemma {:induction false} HowManyNext<T>(q: T -> bool, xs: seq<T>, j: nat)
    requires j < |xs|
    ensures HowMany(q, xs[..j + 1]) == HowMany(q, xs[..j]) + if q(xs[j]) then 1 else 0
  {
    if j > 0 {
      HowManyNext(q, xs[1..], j - 1);
      assert xs[..j + 1][1..] == xs[1..][..j] && xs[..j][1..] == xs[1..][..j - 1];
    }
  }

  ghost predicate TimesIn(p: Plugins, satisfies: (string, string) -> bool, deps: seq<Dependency>, j: nat, e: Error)
    requires e.WrongVersion? && j <= |deps|
  {
    multiset(WrongIn(p, satisfies, e.name, deps, j))[e]
    == HowMany((d: Dependency) => d.name == e.dep && d.constraint == e.constraint, deps[..j])
  }

  lemma TimesInNext(p: Plugins, satisfies: (string, string) -> bool, deps: seq<Dependency>, j: nat, e: Error)
    requires IsMismatch(p, satisfies, e) && 0 < j <= |deps| && TimesIn(p, satisfies, deps, j - 1, e)
    ensures TimesIn(p, satisfies, deps, j, e)
  {
    HowManyNext((d: Dependency) => d.name == e.dep && d.constraint == e.constraint, deps, j - 1);
  }

  lemma TimesInNone(p: Plugins, satisfies: (string, string) -> bool, deps: seq<Dependency>, e: Error)
    requires e.WrongVersion?
    ensures TimesIn(p, satisfies, deps, 0, e)
  {
  }

  lemma {:induction false} WrongInTimes(p: Plugins, satisfies: (string, string) -> bool, deps: seq<Dependency>, j: nat,
                                        e: Error)
    requires IsMismatch(p, satisfies, e) && j <= |deps|
    ensures TimesIn(p, satisfies, deps, j, e)
  {
    if j == 0 {
      TimesInNone(p, satisfies, deps, e);
    } else {
      WrongInTimes(p, satisfies, deps, j - 1, e);
      TimesInNext(p, satisfies, deps, j, e);
    }
  }

  lemma WrongOfTimes(p: Plugins, satisfies: (string, string) -> bool, e: Error)
    requires IsMismatch(p, satisfies, e)
    ensures multiset(WrongOf(p, satisfies, e.name))[e]
         == HowMany((d: Dependency) => d.name == e.dep && d.constraint == e.constraint, p.meta[e.name].dependencies)
  {
    var deps := p.meta[e.name].dependencies;
    WrongInTimes(p, satisfies, deps, |deps|, e);
    assert deps[..|deps|] == deps;
  }

  /** A constraint that is not met is reported as often as it is declared. */
  lemma WrongTimes(p: Plugins, satisfies: (string, string) -> bool, e: Error)
    requires IsDict(p) && IsMismatch(p, satisfies, e)
    ensures multiset(WrongReports(p, satisfies))[e]
         == HowMany((d: Dependency) => d.name == e.dep && d.constraint == e.constraint, p.meta[e.name].dependencies)
  {
    var f := (n: Name) => WrongOf(p, satisfies, n);
    forall n | n != e.name ensures e !in f(n) {
      if n in p.meta {
        WrongOfExact(p, satisfies, n, e);
      }
    }
    FlatTimes(f, p.names, e.name, e);
    WrongOfTimes(p, satisfies, e);
    WrongIsFlat(p, satisfies, |p.names|);
    assert p.names[..|p.names|] == p.names;
  }

  // ---------------------------------------------------------------- in the order of the declarations

  /** `e` reports the `l`th conflict, or the `l`th dependency, that the `k`th plugin declares. */
  ghost predicate Reports(p: Plugins, e: Error, k: nat, l: nat) {
    && k < |p.names| && p.names[k] in p.meta && !e.Circular? && e.name == p.names[k]
    && var m := p.meta[p.names[k]];
       if e.Conflict? then l < |m.conflicts| && m.conflicts[l] == e.other
       else l < |m.dependencies| && m.dependencies[l].name == e.dep
            && (e.WrongVersion? ==> m.dependencies[l].constraint == e.constraint)
            && (!e.WrongVersion? ==> m.dependencies[l].optional == e.MissingOptional?)
  }

  predicate Earlier(a: (nat, nat), b: (nat, nat)) {
    a.0 < b.0 || (a.0 == b.0 && a.1 < b.1)
  }

  /** Each of `errors` reports the declaration at its place, and later ones report later declarations. */
  ghost predicate Placed(p: Plugins, at: seq<(nat, nat)>, errors: seq<Error>) {
    && |at| == |errors|
    && (forall x :: 0 <= x < |at| ==> Reports(p, errors[x], at[x].0, at[x].1))
    && (forall x, y :: 0 <= x < y < |at| ==> Earlier(at[x], at[y]))
  }

  ghost predicate AllEarlier(at: seq<(nat, nat)>, i: nat, j: nat) {
    forall x :: 0 <= x < |at| ==> Earlier(at[x], (i, j))
  }

  /** `errors` report different declarations in their order, all before the `j`th of the `i`th plugin. */
  ghost predicate InOrderTo(p: Plugins, errors: seq<Error>, i: nat, j: nat) {
    exists at :: Placed(p, at, errors) && AllEarlier(at, i, j)
  }

  ghost predicate InOrder(p: Plugins, errors: seq<Error>) {
    exists at :: Placed(p, at, errors)
  }

  lemma InOrderNext(p: Plugins, errors: seq<Error>, i: nat, j: nat, more: seq<Error>)
    requires InOrderTo(p, errors, i, j) && |more| <= 1 && (more != [] ==> Reports(p, more[0], i, j))
    ensures InOrderTo(p, errors + more, i, j + 1)
  {
    var at :| Placed(p, at, errors) && AllEarlier(at, i, j);
    if more == [] {
      assert errors + more == errors;
      assert AllEarlier(at, i, j + 1);
    } else {
      assert Placed(p, at + [(i, j)], errors + more) && AllEarlier(at + [(i, j)], i, j + 1);
    }
  }

  lemma InOrderNextOf(p: Plugins, errors: seq<Error>, i: nat, j: nat, some: seq<Error>, more: seq<Error>)
    requires InOrderTo(p, errors + some, i, j) && |more| <= 1 && (more != [] ==> Reports(p, more[0], i, j))
    ensures InOrderTo(p, errors + (some + more), i, j + 1)
  {
    InOrderNext(p, errors + some, i, j, more);
    ConcatAssociates(errors, some, more);
  }

  lemma InOrderPlugin(p: Plugins, errors: seq<Error>, i: nat, j: nat)
    requires InOrderTo(p, errors, i, j)
    ensures InOrderTo(p, errors, i + 1, 0) && InOrder(p, errors)
  {
    var at :| Placed(p, at, errors) && AllEarlier(at, i, j);
    assert AllEarlier(at, i + 1, 0);
  }

  lemma NoneInOrder(p: Plugins)
    ensures InOrderTo(p, [], 0, 0)
  {
    assert Placed(p, [], []) && AllEarlier([], 0, 0);
  }

  lemma {:induction false} ConflictsOfInOrder(p: Plugins, errors: seq<Error>, i: nat, j: nat)
    requires InOrderTo(p, errors, i, 0)
    ensures InOrderTo(p, errors + ConflictsUpTo(p, i, j), i, j)
  {
    if j == 0 {
      assert errors + [] == errors;
    } else {
      ConflictsOfInOrder(p, errors, i, j - 1);
      InOrderNextOf(p, errors, i, j - 1, ConflictsUpTo(p, i, j - 1), ConflictReport(p, i, j - 1));
    }
  }

  lemma {:induction false} ConflictsInOrder(p: Plugins, i: nat)
    ensures InOrderTo(p, ConflictReportsUpTo(p, i), i, 0)
  {
    if i == 0 {
      NoneInOrder(p);
    } else {
      var n := |Conflicts(p, i - 1)|;
      ConflictsInOrder(p, i - 1);
      ConflictsOfInOrder(p, ConflictReportsUpTo(p, i - 1), i - 1, n);
      InOrderPlugin(p, ConflictReportsUpTo(p, i), i - 1, n);
    }
  }

  lemma {:induction false} MissingOfInOrder(p: Plugins, errors: seq<Error>, i: nat, j: nat)
    requires i < |p.names| && p.names[i] in p.meta && j <= |p.meta[p.names[i]].dependencies|
    requires InOrderTo(p, errors, i, 0)
    ensures InOrderTo(p, errors + MissingIn(p, p.names[i], p.meta[p.names[i]].dependencies[..j]), i, j)
  {
    var name := p.names[i];
    var deps := p.meta[name].dependencies;
    if j == 0 {
      assert errors + [] == errors;
    } else {
      MissingOfInOrder(p, errors, i, j - 1);
      FlatNext((d: Dependency) => MissingReport(p, name, d), deps, j - 1);
      InOrderNextOf(p, errors, i, j - 1, MissingIn(p, name, deps[..j - 1]), MissingReport(p, name, deps[j - 1]));
    }
  }

  lemma {:induction false} MissingInOrder(p: Plugins, i: nat)
    requires IsDict(p) && i <= |p.names|
    ensures InOrderTo(p, Flat((n: Name) => MissingOf(p, n), p.names[..i]), i, 0)
  {
    if i == 0 {
      NoneInOrder(p);
    } else {
      var name := p.names[i - 1];
      var deps := p.meta[name].dependencies;
      var before := Flat((n: Name) => MissingOf(p, n), p.names[..i - 1]);
      MissingInOrder(p, i - 1);
      MissingOfInOrder(p, before, i - 1, |deps|);
      assert deps[..|deps|] == deps;
      InOrderPlugin(p, before + MissingOf(p, name), i - 1, |deps|);
      FlatNext((n: Name) => MissingOf(p, n), p.names, i - 1);
    }
  }

  lemma {:induction false} WrongOfInOrder(p: Plugins, satisfies: (string, string) -> bool, errors: seq<Error>, i: nat,
                                          j: nat)
    requires i < |p.names| && p.names[i] in p.meta && j <= |p.meta[p.names[i]].dependencies|
    requires InOrderTo(p, errors, i, 0)
    ensures InOrderTo(p, errors + WrongIn(p, satisfies, p.names[i], p.meta[p.names[i]].dependencies, j), i, j)
  {
    var name := p.names[i];
    var deps := p.meta[name].dependencies;
    if j == 0 {
      assert errors + [] == errors;
    } else {
      WrongOfInOrder(p, satisfies, errors, i, j - 1);
      InOrderNextOf(p, errors, i, j - 1, WrongIn(p, satisfies, name, deps, j - 1),
                    WrongReport(p, satisfies, name, deps[j - 1]));
    }
  }

  lemma {:induction false} WrongInOrder(p: Plugins, satisfies: (string, string) -> bool, i: nat)
    requires IsDict(p) && i <= |p.names|
    ensures InOrderTo(p, WrongUpTo(p, satisfies, i), i, 0)
  {
    if i == 0 {
      NoneInOrder(p);
    } else {
      var n := |p.meta[p.names[i - 1]].dependencies|;
      WrongInOrder(p, satisfies, i - 1);
      WrongOfInOrder(p, satisfies, WrongUpTo(p, satisfies, i - 1), i - 1, n);
      InOrderPlugin(p, WrongUpTo(p, satisfies, i), i - 1, n);
    }
  }

  /** The reports of each kind are about different declarations, in the order of the dict and of the declarations. */
  lemma ReportsInOrder(p: Plugins, satisfies: (string, string) -> bool)
    requires IsDict(p)
    ensures InOrder(p, ConflictReports(p)) && InOrder(p, MissingReports(p)) && InOrder(p, WrongReports(p, satisfies))
  {
    ConflictsInOrder(p, |p.names|);
    MissingInOrder(p, |p.names|);
    WrongInOrder(p, satisfies, |p.names|);
    assert p.names[..|p.names|] == p.names;
    InOrderPlugin(p, ConflictReports(p), |p.names|, 0);
    InOrderPlugin(p, MissingReports(p), |p.names|, 0);
    InOrderPlugin(p, WrongReports(p, satisfies), |p.names|, 0);
  }
}
