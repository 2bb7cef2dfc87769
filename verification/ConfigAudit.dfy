/** The include graph walk of bin/audit-t300-config.py. */
module ConfigAudit {
  import opened Wrappers

  type Path = string

  /** An option's value and the line it stands on, counted from one. */
  datatype Setting = Setting(value: string, line: nat)

  /** One parsed section of one file: its kind, its name and its options in order. */
  datatype Section = Section(kind: string, name: string, options: seq<(string, Setting)>)

  /** What an include pattern resolves to: refused as unsafe, or the matching files, sorted. */
  datatype Target = Unsafe | Matches(files: seq<Path>)

  /** The configuration on disk: the readable files under the root, already resolved, with their
      sections; and what each include pattern means. */
  datatype Tree = Tree(files: map<Path, seq<Section>>, resolve: string -> Target)

  predicate IsInclude(s: Section) { s.kind == "include" }

  function Included(t: Tree, s: Section): seq<Path> {
    if !IsInclude(s) then [] else match t.resolve(s.name) case Unsafe => [] case Matches(fs) => fs
  }

  /** a's text includes b. */
  predicate Includes(t: Tree, a: Path, b: Path) {
    a in t.files && exists i :: 0 <= i < |t.files[a]| && b in Included(t, t.files[a][i])
  }

  // ----------------------------------------------------------- reachability

  /** A chain of includes from `from` to `to`. */
  predicate Chain(t: Tree, chain: seq<Path>, from: Path, to: Path) {
    && |chain| > 0 && chain[0] == from && chain[|chain| - 1] == to
    && forall i :: 0 <= i < |chain| - 1 ==> Includes(t, chain[i], chain[i + 1])
  }

  ghost predicate Reachable(t: Tree, from: Path, to: Path) {
    exists chain :: Chain(t, chain, from, to)
  }

  lemma ReachableSelf(t: Tree, a: Path)
    ensures Reachable(t, a, a)
  {
    assert Chain(t, [a], a, a);
  }

  lemma ReachableStep(t: Tree, a: Path, b: Path, c: Path)
    requires Reachable(t, a, b) && Includes(t, b, c)
    ensures Reachable(t, a, c)
  {
    var chain :| Chain(t, chain, a, b);
    var longer := chain + [c];
    forall i | 0 <= i < |longer| - 1 ensures Includes(t, longer[i], longer[i + 1]) {
      if i < |chain| - 1 { assert Includes(t, chain[i], chain[i + 1]); }
    }
    assert Chain(t, longer, a, c);
  }

  lemma ReachableTrans(t: Tree, a: Path, b: Path, c: Path)
    requires Reachable(t, a, b) && Reachable(t, b, c)
    ensures Reachable(t, a, c)
  {
    var left :| Chain(t, left, a, b);
    var right :| Chain(t, right, b, c);
    var chain := left + right[1..];
    forall i | 0 <= i < |chain| - 1 ensures Includes(t, chain[i], chain[i + 1]) {
      if i < |left| - 1 {
        assert Includes(t, left[i], left[i + 1]);
      } else {
        assert Includes(t, right[i - (|left| - 1)], right[i - (|left| - 1) + 1]);
      }
    }
    assert Chain(t, chain, a, c);
  }

  /** A set closed under includes contains everything reachable from any of its members. */
  lemma {:induction false} ClosedContainsReachable(t: Tree, s: set<Path>, chain: seq<Path>, from: Path, to: Path)
    requires forall a, b :: a in s && Includes(t, a, b) ==> b in s
    requires from in s && Chain(t, chain, from, to)
    ensures to in s
    decreases |chain|
  {
    if |chain| > 1 {
      assert Includes(t, chain[0], chain[1]);
      var rest := chain[1..];
      forall i | 0 <= i < |rest| - 1 ensures Includes(t, rest[i], rest[i + 1]) {
        assert Includes(t, chain[i + 1], chain[i + 1 + 1]);
      }
      ClosedContainsReachable(t, s, rest, chain[1], to);
    }
  }

  // --------------------------------------------------------------- the walk

  predicate NoDuplicates(s: seq<Path>) {
    forall i, j :: 0 <= i < j < |s| ==> s[i] != s[j]
  }

  /** The sections of one file, in the order the walk listed them. */
  function FromFile(listed: seq<(Path, Section)>, f: Path): seq<Section> {
    if listed == [] then []
    else
      var last := listed[|listed| - 1];
      FromFile(listed[..|listed| - 1], f) + if last.0 == f then [last.1] else []
  }

  lemma FromFileAppend(listed: seq<(Path, Section)>, p: Path, s: Section, f: Path)
    ensures FromFile(listed + [(p, s)], f) == FromFile(listed, f) + if p == f then [s] else []
  {
    assert (listed + [(p, s)])[..|listed|] == listed;
  }

  /** The include patterns among the listed sections that lead nowhere, in listing order. */
  function Dangling(t: Tree, listed: seq<(Path, Section)>): seq<string> {
    if listed == [] then []
    else
      var s := listed[|listed| - 1].1;
      Dangling(t, listed[..|listed| - 1]) + if IsInclude(s) && Included(t, s) == [] then [s.name] else []
  }

  lemma DanglingAppend(t: Tree, listed: seq<(Path, Section)>, p: Path, s: Section)
    ensures Dangling(t, listed + [(p, s)]) ==
            Dangling(t, listed) + if IsInclude(s) && Included(t, s) == [] then [s.name] else []
  {
    assert (listed + [(p, s)])[..|listed|] == listed;
  }

  /** The lists the nested function visit appends to. */
  datatype Lists = Lists(files: seq<Path>, sections: seq<(Path, Section)>, missing: seq<string>, visited: set<Path>)

  ghost predicate Sound(t: Tree, l: Lists) {
    && l.visited <= t.files.Keys
    && NoDuplicates(l.files) && (forall f :: f in l.files <==> f in l.visited)
    && (forall f :: f !in l.visited ==> FromFile(l.sections, f) == [])
    && l.missing == Dangling(t, l.sections)
  }

  /** The lists once s, from path, was listed and its pattern noted if it leads nowhere. */
  function Noted(t: Tree, l: Lists, path: Path, s: Section): Lists {
    l.(sections := l.sections + [(path, s)],
       missing := l.missing + if IsInclude(s) && Included(t, s) == [] then [s.name] else [])
  }

  /** All of a's includes are visited and all of a's sections are listed. */
  ghost predicate Finished(t: Tree, l: Lists, a: Path) {
    && a in t.files && FromFile(l.sections, a) == t.files[a]
    && forall b :: Includes(t, a, b) ==> b in l.visited
  }

  /** From l to l', only files reachable from root were added, each of them finished, and the
      files visited before were left alone; `open` are files still being read. */
  ghost predicate Grown(t: Tree, root: Path, l: Lists, l': Lists, open: set<Path>) {
    && l.visited <= l'.visited && l.files <= l'.files
    && (forall f :: f in l.visited - open ==> FromFile(l'.sections, f) == FromFile(l.sections, f))
    && (forall f :: f in l'.visited - l.visited - open ==> Finished(t, l', f) && Reachable(t, root, f))
  }

  lemma GrownTrans(t: Tree, root: Path, l0: Lists, l1: Lists, l2: Lists, open: set<Path>)
    requires Grown(t, root, l0, l1, open) && Grown(t, root, l1, l2, open)
    ensures Grown(t, root, l0, l2, open)
  {
    forall f | f in l2.visited - l0.visited - open ensures Finished(t, l2, f) && Reachable(t, root, f) {
      if f in l1.visited {
        assert f in l1.visited - l0.visited - open && f in l1.visited - open;
      } else {
        assert f in l2.visited - l1.visited - open;
      }
    }
    forall f | f in l0.visited - open ensures FromFile(l2.sections, f) == FromFile(l0.sections, f) {
      assert f in l1.visited - open;
    }
  }

  /** What a visit of an included file did, seen from the including file. */
  lemma GrownByInclude(t: Tree, path: Path, m: Path, l: Lists, l': Lists)
    requires Grown(t, m, l, l', {}) && Includes(t, path, m) && path in l.visited
    ensures Grown(t, path, l, l', {path}) && FromFile(l'.sections, path) == FromFile(l.sections, path)
  {
    ReachableSelf(t, path);
    ReachableStep(t, path, path, m);
    forall f | f in l'.visited - l.visited ensures Reachable(t, path, f) {
      ReachableTrans(t, path, m, f);
    }
  }

  /** Listing one more section of the open file. */
  lemma GrownBySection(t: Tree, path: Path, l: Lists, s: Section)
    requires Sound(t, l) && path in l.visited
    ensures
      var l' := Noted(t, l, path, s);
      Sound(t, l') && Grown(t, path, l, l', {path}) && FromFile(l'.sections, path) == FromFile(l.sections, path) + [s]
  {
    DanglingAppend(t, l.sections, path, s);
    forall f ensures FromFile(l.sections + [(path, s)], f) == FromFile(l.sections, f) + if path == f then [s] else [] {
      FromFileAppend(l.sections, path, s, f);
    }
  }

  /** Closing the file: the visit as a whole. */
  lemma GrownByFile(t: Tree, path: Path, l0: Lists, l: Lists)
    requires Grown(t, path, l0.(visited := l0.visited + {path}, files := l0.files + [path]), l, {path})
    requires path !in l0.visited && path in t.files && FromFile(l.sections, path) == t.files[path]
    requires IncludesVisited(t, path, |t.files[path]|, l.visited)
    ensures Grown(t, path, l0, l, {})
  {
    ReachableSelf(t, path);
    forall b | Includes(t, path, b) ensures b in l.visited {
      var k :| 0 <= k < |t.files[path]| && b in Included(t, t.files[path][k]);
      assert AllVisited(Included(t, t.files[path][k]), l.visited);
    }
    assert Finished(t, l, path);
    var l1 := l0.(visited := l0.visited + {path}, files := l0.files + [path]);
    forall f | f in l.visited - l0.visited ensures Finished(t, l, f) && Reachable(t, path, f) {
      if f != path { assert f in l.visited - l1.visited - {path}; }
    }
    forall f | f in l0.visited ensures FromFile(l.sections, f) == FromFile(l0.sections, f) {
      assert f in l1.visited - {path};
    }
    assert l0.files <= l1.files;
  }

  lemma UnreadableBeyond(t: Tree, path: Path, m: Path)
    requires Includes(t, path, m) && exists f :: Reachable(t, m, f) && f !in t.files
    ensures exists f :: Reachable(t, path, f) && f !in t.files
  {
    var f :| Reachable(t, m, f) && f !in t.files;
    ReachableSelf(t, path);
    ReachableStep(t, path, path, m);
    ReachableTrans(t, path, m, f);
  }

  /** Where the loop over path's sections stands, l1 being the lists when it began: the first n
      sections are listed and their includes visited. */
  ghost predicate During(t: Tree, path: Path, l1: Lists, l: Lists, n: nat) {
    && Sound(t, l) && path in l1.visited && l1.visited <= l.visited
    && path in t.files && n <= |t.files[path]| && FromFile(l.sections, path) == t.files[path][..n]
    && Grown(t, path, l1, l, {path})
  }

  predicate AllVisited(paths: seq<Path>, visited: set<Path>) { forall b :: b in paths ==> b in visited }

  lemma AllVisitedStep(paths: seq<Path>, j: nat, visited: set<Path>, visited': set<Path>)
    requires j < |paths| && AllVisited(paths[..j], visited) && visited <= visited' && paths[j] in visited'
    ensures AllVisited(paths[..j + 1], visited')
  {
    assert paths[..j + 1] == paths[..j] + [paths[j]];
  }

  /** The includes of the first n sections of path are visited. */
  predicate IncludesVisited(t: Tree, path: Path, n: nat, visited: set<Path>)
    requires path in t.files && n <= |t.files[path]|
  {
    forall k :: 0 <= k < n ==> AllVisited(Included(t, t.files[path][k]), visited)
  }

  lemma IncludesVisitedStep(t: Tree, path: Path, n: nat, visited: set<Path>, visited': set<Path>)
    requires path in t.files && n < |t.files[path]| && IncludesVisited(t, path, n, visited) && visited <= visited'
    requires AllVisited(Included(t, t.files[path][n]), visited')
    ensures IncludesVisited(t, path, n + 1, visited')
  {
    forall k | 0 <= k < n ensures AllVisited(Included(t, t.files[path][k]), visited') {
      assert AllVisited(Included(t, t.files[path][k]), visited);
    }
  }

  lemma DuringSection(t: Tree, path: Path, l1: Lists, l: Lists, n: nat)
    requires During(t, path, l1, l, n) && n < |t.files[path]|
    ensures During(t, path, l1, Noted(t, l, path, t.files[path][n]), n + 1)
  {
    GrownBySection(t, path, l, t.files[path][n]);
    GrownTrans(t, path, l1, l, Noted(t, l, path, t.files[path][n]), {path});
  }

  lemma DuringInclude(t: Tree, path: Path, l1: Lists, l: Lists, m: Path, l': Lists, n: nat)
    requires During(t, path, l1, l, n) && Includes(t, path, m) && Sound(t, l') && Grown(t, m, l, l', {})
    ensures During(t, path, l1, l', n)
  {
    GrownByInclude(t, path, m, l, l');
    GrownTrans(t, path, l1, l, l', {path});
  }

  // --------------------------------------------------------- expansion order

  /** What a visit lists, and what is visited after it. */
  datatype Expansion = Expansion(files: seq<Path>, sections: seq<(Path, Section)>, visited: set<Path>)

  function Then(a: Expansion, b: Expansion): Expansion {
    Expansion(a.files + b.files, a.sections + b.sections, b.visited)
  }

  /** A file's text with every include expanded in place, files already visited left out. */
  function Expand(t: Tree, path: Path, visited: set<Path>): (e: Expansion)
    ensures visited <= e.visited
    decreases t.files.Keys - visited, 0, 0
  {
    if path in visited || path !in t.files then Expansion([], [], visited)
    else
      var rest := ExpandFrom(t, path, 0, visited + {path});
      Expansion([path] + rest.files, rest.sections, rest.visited)
  }

  /** The sections of path from i on: each one, directly followed by the files it includes. */
  function ExpandFrom(t: Tree, path: Path, i: nat, visited: set<Path>): (e: Expansion)
    requires path in t.files && i <= |t.files[path]|
    ensures visited <= e.visited
    decreases t.files.Keys - visited, 2, |t.files[path]| - i
  {
    if i == |t.files[path]| then Expansion([], [], visited)
    else
      var first := ExpandSection(t, path, i, visited);
      Then(first, ExpandFrom(t, path, i + 1, first.visited))
  }

  function ExpandSection(t: Tree, path: Path, i: nat, visited: set<Path>): (e: Expansion)
    requires path in t.files && i < |t.files[path]|
    ensures visited <= e.visited
    decreases t.files.Keys - visited, 2, 0
  {
    var section := t.files[path][i];
    Then(Expansion([], [(path, section)], visited), ExpandAll(t, Included(t, section), visited))
  }

  /** The matches of one include, one after the other. */
  function ExpandAll(t: Tree, matches: seq<Path>, visited: set<Path>): (e: Expansion)
    ensures visited <= e.visited
    decreases t.files.Keys - visited, 1, |matches|
  {
    if matches == [] then Expansion([], [], visited)
    else
      var first := Expand(t, matches[0], visited);
      Then(first, ExpandAll(t, matches[1..], first.visited))
  }

  /** From l to l', exactly e was listed. */
  predicate Listed(l: Lists, e: Expansion, l': Lists) {
    l'.files == l.files + e.files && l'.sections == l.sections + e.sections && l'.visited == e.visited
  }

  /** What l has, and rest that is still to come, is what l0 had, and total. */
  predicate Remaining(l0: Lists, total: Expansion, l: Lists, rest: Expansion) {
    l.files + rest.files == l0.files + total.files && l.sections + rest.sections == l0.sections + total.sections
    && rest.visited == total.visited
  }

  lemma RemainingStep(l0: Lists, total: Expansion, l: Lists, first: Expansion, rest: Expansion, l': Lists)
    requires Remaining(l0, total, l, Then(first, rest)) && Listed(l, first, l')
    ensures Remaining(l0, total, l', rest)
  {
    assert (l.files + first.files) + rest.files == l.files + (first.files + rest.files);
    assert (l.sections + first.sections) + rest.sections == l.sections + (first.sections + rest.sections);
  }

  lemma NothingRemains(l0: Lists, total: Expansion, l: Lists)
    requires Remaining(l0, total, l, Expansion([], [], l.visited))
    ensures Listed(l0, total, l)
  {
    assert l.files + [] == l.files && l.sections + [] == l.sections;
  }

  /** A whole file: its name, then all its sections expanded. */
  lemma ListedFile(t: Tree, path: Path, l0: Lists, l: Lists)
    requires path in t.files && path !in l0.visited
    requires Listed(l0.(visited := l0.visited + {path}, files := l0.files + [path]),
                    ExpandFrom(t, path, 0, l0.visited + {path}), l)
    ensures Listed(l0, Expand(t, path, l0.visited), l)
  {
    var rest := ExpandFrom(t, path, 0, l0.visited + {path});
    assert (l0.files + [path]) + rest.files == l0.files + ([path] + rest.files);
  }

  /** One section: the section itself, then its matches expanded. */
  lemma ListedSection(t: Tree, path: Path, i: nat, l0: Lists, l: Lists)
    requires path in t.files && i < |t.files[path]|
    requires Listed(Noted(t, l0, path, t.files[path][i]), ExpandAll(t, Included(t, t.files[path][i]), l0.visited), l)
    ensures Listed(l0, ExpandSection(t, path, i, l0.visited), l)
  {
    var all := ExpandAll(t, Included(t, t.files[path][i]), l0.visited);
    var one := [(path, t.files[path][i])];
    assert (l0.sections + one) + all.sections == l0.sections + (one + all.sections);
    assert l0.files + ([] + all.files) == l0.files + all.files;
  }

  class Walk {
    const t: Tree
    var files: seq<Path>
    var sections: seq<(Path, Section)>
    var missing: seq<string>
    var visited: set<Path>

    constructor (t: Tree)
      ensures this.t == t && missing == [] && Now() == Lists([], [], [], {})
    {
      this.t := t;
      files, sections, missing, visited := [], [], [], {};
    }

    ghost function Now(): Lists reads this { Lists(files, sections, missing, visited) }

    method Open(path: Path)
      requires Sound(t, Now()) && path in t.files && path !in visited
      modifies this`visited, this`files
      ensures Now() == old(Now()).(visited := old(visited) + {path}, files := old(files) + [path])
      ensures During(t, path, Now(), Now(), 0)
    {
      visited, files := visited + {path}, files + [path];
    }

    /** visit(path). Fails when a file escapes the root or cannot be read. */
    method Visit(path: Path) returns (ok: bool)
      requires Sound(t, Now())
      modifies this
      ensures Sound(t, Now()) && old(visited) <= visited
      ensures ok ==> path in visited && Grown(t, path, old(Now()), Now(), {})
      ensures ok ==> Listed(old(Now()), Expand(t, path, old(visited)), Now())
      ensures !ok ==> exists f :: Reachable(t, path, f) && f !in t.files
      decreases t.files.Keys - visited, 0
    {
      if path in visited {
        assert files + [] == files && sections + [] == sections;
        return true;
      }
      ReachableSelf(t, path);
      if path !in t.files { return false; }
      ghost var l0 := Now();
      Open(path);
      ghost var l1 := Now();
      ok := VisitSections(path, l1);
      if ok {
        GrownByFile(t, path, l0, Now());
        ListedFile(t, path, l0, Now());
      }
    }

    /** The loop over a file's sections. */
    method VisitSections(path: Path, ghost l1: Lists) returns (ok: bool)
      requires Now() == l1 && During(t, path, l1, l1, 0)
      modifies this
      ensures Sound(t, Now()) && old(visited) <= visited
      ensures ok ==> During(t, path, l1, Now(), |t.files[path]|) && IncludesVisited(t, path, |t.files[path]|, visited)
      ensures ok ==> Listed(l1, ExpandFrom(t, path, 0, l1.visited), Now())
      ensures !ok ==> exists f :: Reachable(t, path, f) && f !in t.files
      decreases t.files.Keys - visited, 3
    {
      ghost var total := ExpandFrom(t, path, 0, l1.visited);
      var i := 0;
      while i < |t.files[path]|
        invariant i <= |t.files[path]| && During(t, path, l1, Now(), i)
        invariant IncludesVisited(t, path, i, visited)
        invariant Remaining(l1, total, Now(), ExpandFrom(t, path, i, visited))
      {
        ghost var l := Now();
        ok := VisitSection(path, i, l1);
        if !ok { return; }
        IncludesVisitedStep(t, path, i, l.visited, visited);
        RemainingStep(l1, total, l, ExpandSection(t, path, i, l.visited), ExpandFrom(t, path, i + 1, visited), Now());
        i := i + 1;
      }
      NothingRemains(l1, total, Now());
      ok := true;
    }

    /** The part of a turn before the included files are visited. */
    method Note(path: Path, section: Section) returns (matches: seq<Path>)
      modifies this`sections, this`missing
      ensures Now() == Noted(t, old(Now()), path, section) && matches == Included(t, section)
    {
      matches := [];
      sections := sections + [(path, section)];
      if !IsInclude(section) { return; }
      match t.resolve(section.name) {
        case Unsafe => missing := missing + [section.name];
        case Matches(files) =>
          if files == [] { missing := missing + [section.name]; }
          matches := files;
      }
    }

    /** One turn of the loop over a file's sections. */
    method VisitSection(path: Path, i: nat, ghost l1: Lists) returns (ok: bool)
      requires During(t, path, l1, Now(), i) && i < |t.files[path]|
      modifies this
      ensures Sound(t, Now()) && old(visited) <= visited
      ensures ok ==> During(t, path, l1, Now(), i + 1)
      ensures ok ==> AllVisited(Included(t, t.files[path][i]), visited)
      ensures ok ==> Listed(old(Now()), ExpandSection(t, path, i, old(visited)), Now())
      ensures !ok ==> exists f :: Reachable(t, path, f) && f !in t.files
      decreases t.files.Keys - l1.visited, 2
    {
      ghost var l0 := Now();
      DuringSection(t, path, l1, l0, i);
      var matches := Note(path, t.files[path][i]);
      ghost var noted, total := Now(), ExpandAll(t, matches, visited);
      assert matches[0..] == matches;
      for j := 0 to |matches|
        invariant During(t, path, l1, Now(), i + 1) && old(visited) <= visited
        invariant AllVisited(matches[..j], visited)
        invariant Remaining(noted, total, Now(), ExpandAll(t, matches[j..], visited))
      {
        assert Includes(t, path, matches[j]);
        ghost var l := Now();
        ok := VisitMatch(path, matches[j], i + 1, l1);
        if !ok { return; }
        AllVisitedStep(matches, j, l.visited, visited);
        assert matches[j..][1..] == matches[j + 1..];
        RemainingStep(noted, total, l, Expand(t, matches[j], l.visited), ExpandAll(t, matches[j + 1..], visited),
                      Now());
      }
      assert matches[..|matches|] == matches;
      NothingRemains(noted, total, Now());
      ListedSection(t, path, i, l0, Now());
      ok := true;
    }

    method VisitMatch(path: Path, m: Path, ghost n: nat, ghost l1: Lists) returns (ok: bool)
      requires During(t, path, l1, Now(), n) && Includes(t, path, m)
      modifies this
      ensures Sound(t, Now()) && old(visited) <= visited
      ensures ok ==> During(t, path, l1, Now(), n) && m in visited
      ensures ok ==> Listed(old(Now()), Expand(t, m, old(visited)), Now())
      ensures !ok ==> exists f :: Reachable(t, path, f) && f !in t.files
      decreases t.files.Keys - l1.visited, 1
    {
      ghost var l := Now();
      ok := Visit(m);
      if ok {
        DuringInclude(t, path, l1, l, m, Now(), n);
      } else {
        UnreadableBeyond(t, path, m);
      }
    }
  }

  /** load_tree, from the entry file on. */
  method LoadTree(t: Tree, entry: Path) returns (walk: Walk, ok: bool)
    ensures fresh(walk)
    ensures ok <==> forall f :: Reachable(t, entry, f) ==> f in t.files
    ensures ok ==> NoDuplicates(walk.files) && forall f :: f in walk.files <==> Reachable(t, entry, f)
    ensures ok ==> forall f ::
      if f in walk.files then f in t.files && FromFile(walk.sections, f) == t.files[f]
      else FromFile(walk.sections, f) == []
    ensures ok ==> walk.missing == Dangling(t, walk.sections)
    ensures ok ==> walk.files == Expand(t, entry, {}).files && walk.sections == Expand(t, entry, {}).sections
  {
    walk := new Walk(t);
    ghost var l := walk.Now();
    ok := walk.Visit(entry);
    if ok { ExactlyReachable(t, entry, l, walk.Now()); }
  }

  lemma ExactlyReachable(t: Tree, entry: Path, l: Lists, l': Lists)
    requires l == Lists([], [], [], {}) && Sound(t, l') && entry in l'.visited && Grown(t, entry, l, l', {})
    ensures forall f :: f in l'.files <==> Reachable(t, entry, f)
    ensures forall f :: f in l'.files ==> f in t.files && FromFile(l'.sections, f) == t.files[f]
  {
    forall a, b | a in l'.visited && Includes(t, a, b) ensures b in l'.visited {
      assert a in l'.visited - l.visited - {};
    }
    forall f | f in l'.visited ensures Reachable(t, entry, f) && Finished(t, l', f) {
      assert f in l'.visited - l.visited - {};
    }
    forall f | Reachable(t, entry, f) ensures f in l'.visited {
      var chain :| Chain(t, chain, entry, f);
      ClosedContainsReachable(t, l'.visited, chain, entry, f);
    }
  }

  // ---------------------------------------------------------- one section

  type Options = seq<(string, Setting)>

  /** The value of the last option with this key. */
  function LastValue(options: Options, key: string): Option<Setting> {
    if options == [] then None
    else
      var last := options[|options| - 1];
      if last.0 == key then Some(last.1) else LastValue(options[..|options| - 1], key)
  }

  /** Option i sets the key, and no later one does. */
  predicate SetsLast(options: Options, key: string, i: nat) {
    i < |options| && options[i].0 == key && forall j :: i < j < |options| ==> options[j].0 != key
  }

  lemma {:induction false} LastValueIsLast(options: Options, key: string)
    ensures LastValue(options, key).None? <==> forall i :: 0 <= i < |options| ==> options[i].0 != key
    ensures LastValue(options, key).Some? ==>
      exists i: nat :: SetsLast(options, key, i) && options[i].1 == LastValue(options, key).value
  {
    if options != [] {
      var n := |options| - 1;
      if options[n].0 == key {
        assert SetsLast(options, key, n);
      } else {
        LastValueIsLast(options[..n], key);
        if LastValue(options[..n], key).Some? {
          var i: nat :| SetsLast(options[..n], key, i) && options[..n][i].1 == LastValue(options[..n], key).value;
          assert forall j :: i < j < n ==> options[j] == options[..n][j];
          assert SetsLast(options, key, i);
        }
      }
    }
  }

  /** What first_section looks for; fold is str.casefold. */
  datatype Wanted = Wanted(kind: string, name: string, fold: string -> string) {
    predicate Is(s: Section) { s.kind == fold(kind) && fold(s.name) == fold(name) }
  }

  /** A section is wanted if kind and name agree, letter case aside; kinds are folded already. */
  lemma WantedExactly(s: Section, kind: string, name: string, fold: string -> string)
    ensures Wanted(kind, name, fold).Is(s) <==> s.kind == fold(kind) && fold(name) == fold(s.name)
  {
  }

  /** The options of all wanted sections, in listing order. */
  function OptionsOf(sections: seq<Section>, w: Wanted): Options {
    if sections == [] then []
    else
      var last := sections[|sections| - 1];
      OptionsOf(sections[..|sections| - 1], w) + if w.Is(last) then last.options else []
  }

  lemma LastValueAppend(options: Options, o: (string, Setting), key: string)
    ensures LastValue(options + [o], key) == if o.0 == key then Some(o.1) else LastValue(options, key)
  {
    assert (options + [o])[..|options|] == options;
  }

  ghost predicate Holds(values: map<string, Setting>, options: Options) {
    forall key :: LastValue(options, key) == if key in values then Some(values[key]) else None
  }

  /** The merged section: header and name of section `first`, raw text and location of section
      `owner`, and the merged options. */
  datatype Merged = Merged(first: nat, owner: nat, values: map<string, Setting>)

  predicate HasGcode(s: Section) { exists i :: 0 <= i < |s.options| && s.options[i].0 == "gcode" }

  predicate IsFirst(sections: seq<Section>, w: Wanted, first: nat) {
    first < |sections| && w.Is(sections[first]) && forall k :: 0 <= k < first ==> !w.Is(sections[k])
  }

  /** The last wanted section with a gcode option, or else the last wanted one. */
  predicate IsOwner(sections: seq<Section>, w: Wanted, owner: nat) {
    && owner < |sections| && w.Is(sections[owner])
    && forall k :: 0 <= k < |sections| && w.Is(sections[k]) ==>
         if HasGcode(sections[owner]) then k > owner ==> !HasGcode(sections[k])
         else k <= owner && !HasGcode(sections[k])
  }

  /** r is what first_section must return for this listing. */
  ghost predicate IsMerged(sections: seq<Section>, w: Wanted, r: Option<Merged>) {
    match r
    case None => forall s :: s in sections ==> !w.Is(s)
    case Some(m) =>
      && IsFirst(sections, w, m.first) && IsOwner(sections, w, m.owner)
      && Holds(m.values, OptionsOf(sections, w))
  }

  /** One section's options put over the values found so far. */
  method Overlay(values: map<string, Setting>, options: Options, ghost before: Options)
    returns (more: map<string, Setting>)
    requires Holds(values, before)
    ensures Holds(more, before + options)
  {
    more := values;
    assert before + options[..0] == before;
    for j := 0 to |options|
      invariant Holds(more, before + options[..j])
    {
      ghost var all := before + options[..j];
      assert before + options[..j + 1] == all + [options[j]];
      forall k
        ensures LastValue(all + [options[j]], k) == if k == options[j].0 then Some(options[j].1) else LastValue(all, k)
      {
        LastValueAppend(all, options[j], k);
      }
      more := more[options[j].0 := options[j].1];
    }
    assert options[..|options|] == options;
  }

  method MergeOptions(sections: seq<Section>, w: Wanted) returns (values: map<string, Setting>)
    ensures Holds(values, OptionsOf(sections, w))
  {
    values := map[];
    for i := 0 to |sections|
      invariant Holds(values, OptionsOf(sections[..i], w))
    {
      assert sections[..i + 1][..i] == sections[..i];
      ghost var before := OptionsOf(sections[..i], w);
      if w.Is(sections[i]) {
        values := Overlay(values, sections[i].options, before);
      } else {
        assert before + [] == before;
      }
    }
    assert sections[..|sections|] == sections;
  }

  /** first_section */
  method FirstSection(sections: seq<Section>, w: Wanted) returns (r: Option<Merged>)
    ensures IsMerged(sections, w, r)
  {
    var first := 0;
    while first < |sections| && !w.Is(sections[first])
      invariant first <= |sections| && forall k :: 0 <= k < first ==> !w.Is(sections[k])
    {
      first := first + 1;
    }
    if first == |sections| { return None; }
    var values := MergeOptions(sections, w);
    var owner := RawOwner(sections, w, first);
    r := Some(Merged(first, owner, values));
  }

  method RawOwner(sections: seq<Section>, w: Wanted, first: nat) returns (owner: nat)
    requires IsFirst(sections, w, first)
    ensures IsOwner(sections, w, owner)
  {
    owner := first;
    for i := first + 1 to |sections|
      invariant IsOwner(sections[..i], w, owner)
    {
      var better := w.Is(sections[i]) && (HasGcode(sections[i]) || !HasGcode(sections[owner]));
      if better { owner := i; }
    }
    assert sections[..|sections|] == sections;
  }

  // The order of expansion decides: a.cfg includes b.cfg and then sets the velocity b.cfg sets too.
  const INCLUDE_B := Section("include", "b.cfg", [])
  const SET_100 := Section("printer", "", [("max_velocity", Setting("100", 3))])
  const SET_999 := Section("printer", "", [("max_velocity", Setting("999", 2))])
  const TWO_FILES := Tree(map["a.cfg" := [INCLUDE_B, SET_100], "b.cfg" := [SET_999]],
                          pattern => if pattern == "b.cfg" then Matches(["b.cfg"]) else Unsafe)

  lemma TwoFilesExpanded()
    ensures Expand(TWO_FILES, "a.cfg", {}).sections == [("a.cfg", INCLUDE_B), ("b.cfg", SET_999), ("a.cfg", SET_100)]
  {
    var t := TWO_FILES;
    var one, both: set<Path> := {"a.cfg"}, {"a.cfg", "b.cfg"};
    assert "a.cfg"[0] != "b.cfg"[0];
    assert {} + {"a.cfg"} == one && one + {"b.cfg"} == both;
    assert ExpandFrom(t, "b.cfg", 1, both) == Expansion([], [], both);
    assert ExpandSection(t, "b.cfg", 0, both) == Expansion([], [("b.cfg", SET_999)], both);
    assert Expand(t, "b.cfg", one) == Expansion(["b.cfg"], [("b.cfg", SET_999)], both);
    assert ExpandAll(t, ["b.cfg"], one) == Expansion(["b.cfg"], [("b.cfg", SET_999)], both);
    assert ExpandSection(t, "a.cfg", 0, one) ==
           Expansion(["b.cfg"], [("a.cfg", INCLUDE_B), ("b.cfg", SET_999)], both);
    assert ExpandFrom(t, "a.cfg", 2, both) == Expansion([], [], both);
    assert ExpandFrom(t, "a.cfg", 1, both) == Expansion([], [("a.cfg", SET_100)], both);
    assert ExpandFrom(t, "a.cfg", 0, one).sections == [("a.cfg", INCLUDE_B), ("b.cfg", SET_999), ("a.cfg", SET_100)];
  }

  lemma IncludingFileWins(w: Wanted)
    requires w.Is(SET_100)
    ensures
      var listed := Sections(Expand(TWO_FILES, "a.cfg", {}).sections);
      LastValue(OptionsOf(listed, w), "max_velocity") == Some(Setting("100", 3))
  {
    TwoFilesExpanded();
    var listed := Sections(Expand(TWO_FILES, "a.cfg", {}).sections);
    assert listed == [INCLUDE_B, SET_999, SET_100];
    var before := OptionsOf(listed[..2], w);
    LastValueAppend(before, SET_100.options[0], "max_velocity");
    assert before + SET_100.options == before + [SET_100.options[0]];
  }

  function Sections(listed: seq<(Path, Section)>): seq<Section> {
    seq(|listed|, i requires 0 <= i < |listed| => listed[i].1)
  }

  /** What the auditor sees under a section's name: load_tree, then first_section. Each option has its
      last value in the order in which includes are expanded. */
  method EffectiveSection(t: Tree, entry: Path, w: Wanted) returns (r: Result<Option<Merged>>)
    ensures r.Ok? <==> forall f :: Reachable(t, entry, f) ==> f in t.files
    ensures r.Ok? ==> IsMerged(Sections(Expand(t, entry, {}).sections), w, r.value)
  {
    var walk, ok := LoadTree(t, entry);
    if !ok { return Raised; }
    var merged := FirstSection(Sections(walk.sections), w);
    r := Ok(merged);
  }

  /** A configuration line, as the header and option patterns classify it. */
  datatype Line = Header(kind: string, name: string) | OptionLine(key: string, value: string) | OtherLine

  /** The sections of a file: start line, end line (exclusive) and what stands between. */
  datatype Span = Span(start: nat, end: nat, section: Section)

  /** The options on lines start to end, with their line numbers. */
  function OptionsIn(lines: seq<Line>, start: nat, end: nat): Options
    requires start <= end <= |lines|
  {
    if start == end then []
    else
      var last := lines[end - 1];
      OptionsIn(lines, start, end - 1) + if last.OptionLine? then [(last.key, Setting(last.value, end))] else []
  }

  /** Option i is what its line says. */
  predicate ReadFrom(lines: seq<Line>, start: nat, end: nat, o: (string, Setting)) {
    start < o.1.line <= end <= |lines| && lines[o.1.line - 1] == OptionLine(o.0, o.1.value)
  }

  /** Each option is read from one of these lines, later ones from later lines, and every option line is
      read. */
  lemma {:induction false} OptionsExactly(lines: seq<Line>, start: nat, end: nat)
    requires start <= end <= |lines|
    ensures
      var options := OptionsIn(lines, start, end);
      && (forall i :: 0 <= i < |options| ==> ReadFrom(lines, start, end, options[i]))
      && (forall i, j :: 0 <= i < j < |options| ==> options[i].1.line < options[j].1.line)
      && (forall k :: start <= k < end && lines[k].OptionLine? ==>
            (lines[k].key, Setting(lines[k].value, k + 1)) in options)
  {
    if start < end {
      OptionsExactly(lines, start, end - 1);
      var before, options := OptionsIn(lines, start, end - 1), OptionsIn(lines, start, end);
      forall i | 0 <= i < |options| ensures ReadFrom(lines, start, end, options[i]) {
        if i < |before| { assert ReadFrom(lines, start, end - 1, before[i]); }
      }
      forall i, j | 0 <= i < j < |options| ensures options[i].1.line < options[j].1.line {
        assert ReadFrom(lines, start, end - 1, before[i]);
      }
      forall k | start <= k < end && lines[k].OptionLine?
        ensures (lines[k].key, Setting(lines[k].value, k + 1)) in options
      {
        if k < end - 1 { assert (lines[k].key, Setting(lines[k].value, k + 1)) in before; }
      }
    }
  }

  function HeadersIn(lines: seq<Line>): seq<nat> {
    if lines == [] then []
    else HeadersIn(lines[..|lines| - 1]) + if lines[|lines| - 1].Header? then [|lines| - 1] else []
  }

  lemma {:induction false} HeadersAreHeaders(lines: seq<Line>)
    ensures forall i :: 0 <= i < |HeadersIn(lines)| ==>
      HeadersIn(lines)[i] < |lines| && lines[HeadersIn(lines)[i]].Header?
    ensures forall i, j :: 0 <= i < j < |HeadersIn(lines)| ==> HeadersIn(lines)[i] < HeadersIn(lines)[j]
    ensures forall k :: 0 <= k < |lines| && lines[k].Header? ==> k in HeadersIn(lines)
  {
    if lines != [] {
      HeadersAreHeaders(lines[..|lines| - 1]);
    }
  }

  /** Line start opens a section; it runs up to end, holds no further header and has exactly the
      options in between, in order. */
  predicate IsSpan(lines: seq<Line>, start: nat, end: nat, s: Span) {
    && s.start == start < end == s.end <= |lines| && lines[start].Header?
    && s.section == Section(lines[start].kind, lines[start].name, OptionsIn(lines, start + 1, end))
    && forall k :: start < k < end ==> !lines[k].Header?
  }

  /** Where the section that header i opens ends. */
  function EndOf(lines: seq<Line>, i: nat): nat
    requires i < |HeadersIn(lines)|
  {
    if i + 1 < |HeadersIn(lines)| then HeadersIn(lines)[i + 1] else |lines|
  }

  /** Between two consecutive headers there is none. */
  lemma NoHeaderBetween(lines: seq<Line>, i: nat)
    requires i < |HeadersIn(lines)|
    ensures HeadersIn(lines)[i] < EndOf(lines, i) <= |lines| && lines[HeadersIn(lines)[i]].Header?
    ensures forall k :: HeadersIn(lines)[i] < k < EndOf(lines, i) ==> !lines[k].Header?
  {
    HeadersAreHeaders(lines);
  }

  /** parse_sections: one section for every header, which runs to the next header or the end. */
  method ParseSections(lines: seq<Line>) returns (spans: seq<Span>)
    ensures |spans| == |HeadersIn(lines)|
    ensures forall i :: 0 <= i < |spans| ==> IsSpan(lines, HeadersIn(lines)[i], EndOf(lines, i), spans[i])
  {
    var starts: seq<nat> := [];
    for i := 0 to |lines|
      invariant starts == HeadersIn(lines[..i])
    {
      assert lines[..i + 1][..i] == lines[..i];
      if lines[i].Header? { starts := starts + [i]; }
    }
    assert lines[..|lines|] == lines;
    spans := [];
    for p := 0 to |starts|
      invariant |spans| == p
      invariant forall i :: 0 <= i < p ==> IsSpan(lines, HeadersIn(lines)[i], EndOf(lines, i), spans[i])
    {
      NoHeaderBetween(lines, p);
      var start := starts[p];
      var end := if p + 1 < |starts| then starts[p + 1] else |lines|;
      var options := CollectOptions(lines, start + 1, end);
      spans := spans + [Span(start, end, Section(lines[start].kind, lines[start].name, options))];
    }
  }

  method CollectOptions(lines: seq<Line>, start: nat, end: nat) returns (options: Options)
    requires start <= end <= |lines|
    ensures options == OptionsIn(lines, start, end)
  {
    options := [];
    for i := start to end
      invariant options == OptionsIn(lines, start, i)
    {
      if lines[i].OptionLine? { options := options + [(lines[i].key, Setting(lines[i].value, i + 1))]; }
    }
  }
}
