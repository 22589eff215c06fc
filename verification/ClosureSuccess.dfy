/** When a project has a closure at all, said of its files rather than of the steps. */
module ClosureSuccess {
  import opened Wrappers
  import opened PackClosure
  import PathClean

  /** The paths of the walked files, directory by directory. */
  function PathsOf(d: Directory): (paths: seq<string>)
    ensures |paths| == |d.found|
  {
    seq(|d.found|, i requires 0 <= i < |d.found| => PathClean.Clean(d.destination + "/" + d.found[i].relative))
  }

  function WalkedPaths(dirs: seq<Directory>): seq<string> {
    if dirs == [] then [] else WalkedPaths(dirs[..|dirs| - 1]) + PathsOf(dirs[|dirs| - 1])
  }

  predicate AllRegular(dirs: seq<Directory>) {
    forall d, f :: d in dirs && f in d.found ==> f.regular
  }

  predicate Distinct(paths: seq<string>) {
    forall i, j :: 0 <= i < j < |paths| ==> paths[i] != paths[j]
  }

  predicate NoneIn(paths: seq<string>, taken: set<string>) {
    forall p :: p in paths ==> p !in taken
  }

  /** The walked files are regular and each has a path of its own, not taken before. */
  predicate Fresh(dirs: seq<Directory>, taken: set<string>) {
    AllRegular(dirs) && Distinct(WalkedPaths(dirs)) && NoneIn(WalkedPaths(dirs), taken)
  }

  lemma AddableExactly(d: Directory, taken: set<string>)
    ensures Addable(d, taken) <==>
      (forall f :: f in d.found ==> f.regular) && Distinct(PathsOf(d)) && NoneIn(PathsOf(d), taken)
  {
    forall i | 0 <= i < |d.found| ensures PathsOf(d)[i] == PathOf(d, d.found[i]) && PathsOf(d)[i] in PathsOf(d) {
    }
    if Addable(d, taken) {
      forall f | f in d.found ensures f.regular {
        var i :| 0 <= i < |d.found| && d.found[i] == f;
      }
    }
  }

  lemma {:induction false} AddedExists(before: Paths, d: Directory, n: nat) returns (after: Paths)
    requires n <= |d.found| && Addable(d, before.Keys)
    ensures Added(before, Prefix(d, n), after)
  {
    if n == 0 {
      after := before;
    } else {
      var now := AddedExists(before, d, n - 1);
      after := AddedOneMore(before, d, n - 1, now);
    }
  }

  lemma AddedOneMore(before: Paths, d: Directory, i: nat, now: Paths) returns (after: Paths)
    requires i < |d.found| && Addable(d, before.Keys) && Added(before, Prefix(d, i), now)
    ensures Added(before, Prefix(d, i + 1), after)
  {
    AddableParts(d, i, before.Keys);
    AddableParts(d, i + 1, before.Keys);
    OneMoreAddable(before, d, i, now);
    OneMoreAdded(before, d, i, now);
    after := now[PathOf(d, d.found[i]) := EntryOf(d, d.found[i])];
  }

  lemma AddedWhole(before: Paths, d: Directory) returns (after: Paths)
    requires Addable(d, before.Keys)
    ensures Added(before, d, after)
  {
    after := AddedExists(before, d, |d.found|);
    assert Prefix(d, |d.found|) == d;
  }

  /** The paths there are after a directory is added. */
  lemma AddedKeys(before: Paths, d: Directory, after: Paths, p: string)
    requires Added(before, d, after)
    ensures p in after <==> p in before || p in PathsOf(d)
  {
    if p in after {
      assert MapsTo(after, p, after[p]);
      if !MapsTo(before, p, after[p]) {
        var f :| f in d.found && after[p] == EntryOf(d, f);
        var i :| 0 <= i < |d.found| && d.found[i] == f;
        assert PathsOf(d)[i] == p;
      }
    }
    if p in before {
      AddedKeeps(before, d, after, p);
    }
    if p in PathsOf(d) {
      var i :| 0 <= i < |d.found| && PathsOf(d)[i] == p;
      var e := EntryOf(d, d.found[i]);
      assert Holds(d, e);
      assert MapsTo(after, e.path, e);
    }
  }

  lemma {:induction false} AllAddedKeys(before: Paths, dirs: seq<Directory>, after: Paths, p: string)
    requires AllAdded(before, dirs, after)
    ensures p in after <==> p in before || p in WalkedPaths(dirs)
  {
    if dirs != [] {
      var init, last := dirs[..|dirs| - 1], dirs[|dirs| - 1];
      var middle :| AllAdded(before, init, middle) && Added(middle, last, after);
      AllAddedKeys(before, init, middle, p);
      AddedKeys(middle, last, after, p);
    }
  }

  lemma DistinctParts(a: seq<string>, b: seq<string>)
    ensures Distinct(a + b) <==> Distinct(a) && Distinct(b) && forall p :: p in b ==> p !in a
  {
    var c := a + b;
    assert forall i :: 0 <= i < |a| ==> c[i] == a[i];
    assert forall j :: 0 <= j < |b| ==> c[|a| + j] == b[j];
    if Distinct(c) {
      forall i, j | 0 <= i < j < |b| ensures b[i] != b[j] {
        assert c[|a| + i] != c[|a| + j];
      }
      forall p | p in b ensures p !in a {
        var j :| 0 <= j < |b| && b[j] == p;
        forall i | 0 <= i < |a| ensures a[i] != p {
          assert c[i] != c[|a| + j];
        }
      }
    }
    if Distinct(a) && Distinct(b) && forall p :: p in b ==> p !in a {
      forall i, j | 0 <= i < j < |c| ensures c[i] != c[j] {
        if i < |a| <= j {
          assert c[j] == b[j - |a|] && b[j - |a|] in b;
        } else if |a| <= i {
          assert c[i] == b[i - |a|] && c[j] == b[j - |a|];
        }
      }
    }
  }

  ghost predicate CanAddAll(before: Paths, dirs: seq<Directory>) {
    exists after :: AllAdded(before, dirs, after)
  }

  /** Directories can be added one after the other exactly when all their walked files
      are regular and have paths of their own. */
  lemma {:induction false} AllAddedExists(before: Paths, dirs: seq<Directory>)
    ensures CanAddAll(before, dirs) <==> Fresh(dirs, before.Keys)
  {
    if dirs == [] {
      assert AllAdded(before, dirs, before);
    } else {
      var init, last := dirs[..|dirs| - 1], dirs[|dirs| - 1];
      assert dirs == init + [last];
      AllAddedExists(before, init);
      FreshParts(init, last, before.Keys);
      if CanAddAll(before, init) {
        var middle :| AllAdded(before, init, middle);
        OneMoreDirectory(before, dirs, middle);
      } else if CanAddAll(before, dirs) {
        AllButLastFirst(before, dirs);
      }
    }
  }

  lemma AllButLastFirst(before: Paths, dirs: seq<Directory>)
    requires dirs != [] && CanAddAll(before, dirs)
    ensures CanAddAll(before, dirs[..|dirs| - 1])
  {
    var after :| AllAdded(before, dirs, after);
    var middle :| AllAdded(before, dirs[..|dirs| - 1], middle) && Added(middle, dirs[|dirs| - 1], after);
  }

  lemma FreshParts(init: seq<Directory>, last: Directory, taken: set<string>)
    ensures Fresh(init + [last], taken) <==>
      && Fresh(init, taken)
      && (forall f :: f in last.found ==> f.regular) && Distinct(PathsOf(last)) && NoneIn(PathsOf(last), taken)
      && forall p :: p in PathsOf(last) ==> p !in WalkedPaths(init)
  {
    var dirs := init + [last];
    assert dirs[..|dirs| - 1] == init && dirs[|dirs| - 1] == last;
    DistinctParts(WalkedPaths(init), PathsOf(last));
    assert WalkedPaths(dirs) == WalkedPaths(init) + PathsOf(last);
    assert last in dirs && forall d :: d in dirs <==> d in init || d == last;
  }

  lemma OneMoreDirectory(before: Paths, dirs: seq<Directory>, middle: Paths)
    requires dirs != [] && AllAdded(before, dirs[..|dirs| - 1], middle)
    requires Fresh(dirs[..|dirs| - 1], before.Keys)
    ensures CanAddAll(before, dirs) <==> Fresh(dirs, before.Keys)
  {
    var init, last := dirs[..|dirs| - 1], dirs[|dirs| - 1];
    assert dirs == init + [last];
    FreshParts(init, last, before.Keys);
    AddableExactly(last, middle.Keys);
    forall p ensures p in middle.Keys <==> p in before || p in WalkedPaths(init) {
      AllAddedKeys(before, init, middle, p);
    }
    if Addable(last, middle.Keys) {
      var after := AddedWhole(middle, last);
      assert AllAdded(before, dirs, after);
    } else {
      StuckAt(before, dirs, |dirs| - 1, middle);
    }
  }

  lemma MemoryAddedExists(before: Paths, files: map<string, OnDisk>, memory: set<string>) returns (after: Paths)
    requires forall reference :: reference in memory ==> Readable(files, reference)
    ensures MemoryAdded(before, files, memory, after)
  {
    var names := set reference | reference in memory :: PathClean.Clean(reference);
    after := map p | p in before.Keys + names ::
      if p in names && p in files then Entry(p, files[p].data, files[p].mode)
      else if p in before then before[p] else Entry(p, [], 0);
    forall p ensures p in names <==> Names(memory, p) {
    }
    forall p | p in names ensures p in files {
      var reference :| reference in memory && PathClean.Clean(reference) == p;
    }
  }

  lemma {:induction false} SourcesAddedExists(before: Paths, sources: set<Source>) returns (after: Paths)
    requires SourcesAddable(sources, before.Keys)
    ensures SourcesAdded(before, sources, after)
    decreases sources
  {
    if sources == {} {
      after := before;
    } else {
      var s :| s in sources;
      var rest := sources - {s};
      var now := SourcesAddedExists(before, rest);
      assert sources == rest + {s};
      OneMoreSource(before, rest, now, s);
      after := AddedWhole(now, s.dir);
      SourceJoins(before, rest, now, s, after);
    }
  }

  /** The paths that are taken when the sources come: those of the components, the memory
      files and the routes, and the project file's. */
  ghost predicate TakenEarly(project: Project, p: string) {
    || p == project.yaml.path || p in WalkedPaths(project.components)
    || Names(project.memory, p) || p in WalkedPaths(project.routes)
  }

  /** The route files are regular and have paths of their own, apart from the project
      file, the components and the memory files. */
  ghost predicate RoutesFresh(project: Project) {
    && AllRegular(project.routes) && Distinct(WalkedPaths(project.routes))
    && (forall p :: p in WalkedPaths(project.routes) ==>
          p != project.yaml.path && p !in WalkedPaths(project.components) && !Names(project.memory, p))
  }

  /** What a project needs for a closure. */
  ghost predicate Packable(project: Project) {
    && (forall reference :: reference in project.memory ==> Readable(project.files, reference))
    && project.routesValid
    && Fresh(project.components, {project.yaml.path})
    && RoutesFresh(project)
    && (forall s :: s in project.sources ==>
          && s.loads && (forall f :: f in s.dir.found ==> f.regular) && Distinct(PathsOf(s.dir))
          && forall p :: p in PathsOf(s.dir) ==> !TakenEarly(project, p))
    && (forall s, t, p :: s in project.sources && t in project.sources && s != t && p in PathsOf(s.dir) ==>
          p !in PathsOf(t.dir))
  }

  lemma OverlapsExactly(a: Directory, b: Directory)
    ensures Overlaps(a, b) <==> exists p :: p in PathsOf(a) && p in PathsOf(b)
  {
    forall f | f in a.found ensures PathOf(a, f) in PathsOf(a) {
      PathListed(a, f);
    }
    forall f | f in b.found ensures PathOf(b, f) in PathsOf(b) {
      PathListed(b, f);
    }
    if p :| p in PathsOf(a) && p in PathsOf(b) {
      var f, g := WalkedTo(a, p), WalkedTo(b, p);
    }
  }

  lemma PathListed(d: Directory, f: Found)
    requires f in d.found
    ensures PathOf(d, f) in PathsOf(d)
  {
    var i :| 0 <= i < |d.found| && d.found[i] == f;
    assert PathsOf(d)[i] == PathOf(d, f);
  }

  ghost function WalkedTo(d: Directory, p: string): (f: Found)
    requires p in PathsOf(d)
    ensures f in d.found && PathOf(d, f) == p
  {
    var i :| 0 <= i < |d.found| && PathsOf(d)[i] == p;
    d.found[i]
  }

  lemma SourcesAddableExactly(sources: set<Source>, taken: set<string>)
    ensures SourcesAddable(sources, taken) <==>
      && (forall s :: s in sources ==>
            && s.loads && (forall f :: f in s.dir.found ==> f.regular) && Distinct(PathsOf(s.dir))
            && NoneIn(PathsOf(s.dir), taken))
      && (forall s, t, p :: s in sources && t in sources && s != t && p in PathsOf(s.dir) ==> p !in PathsOf(t.dir))
  {
    forall s | s in sources ensures Addable(s.dir, taken) <==>
      (forall f :: f in s.dir.found ==> f.regular) && Distinct(PathsOf(s.dir)) && NoneIn(PathsOf(s.dir), taken)
    {
      AddableExactly(s.dir, taken);
    }
    forall s, t | s in sources && t in sources
      ensures Overlaps(s.dir, t.dir) <==> exists p :: p in PathsOf(s.dir) && p in PathsOf(t.dir)
    {
      OverlapsExactly(s.dir, t.dir);
    }
  }

  lemma EarlyKeys(project: Project, before: Paths, p: string)
    requires BeforeSources(project, before)
    ensures p in before <==> TakenEarly(project, p)
  {
    var start := map[project.yaml.path := project.yaml];
    var c, withMemory :|
      && AllAdded(start, project.components, c)
      && MemoryAdded(c, project.files, project.memory, withMemory)
      && AllAdded(withMemory, project.routes, before);
    AllAddedKeys(start, project.components, c, p);
    AllAddedKeys(withMemory, project.routes, before, p);
    assert p in withMemory <==> p in c || Names(project.memory, p);
  }

  lemma EarlyExists(project: Project)
    requires forall reference :: reference in project.memory ==> Readable(project.files, reference)
    ensures (exists before :: BeforeSources(project, before)) <==>
      Fresh(project.components, {project.yaml.path}) && RoutesFresh(project)
  {
    var start := map[project.yaml.path := project.yaml];
    AllAddedExists(start, project.components);
    assert start.Keys == {project.yaml.path};
    if CanAddAll(start, project.components) {
      var c :| AllAdded(start, project.components, c);
      var withMemory := MemoryAddedExists(c, project.files, project.memory);
      RoutesExist(project, c, withMemory);
    } else {
      if exists before :: BeforeSources(project, before) {
        ComponentsFirst(project);
      }
    }
  }

  lemma ComponentsFirst(project: Project)
    requires exists before :: BeforeSources(project, before)
    ensures CanAddAll(map[project.yaml.path := project.yaml], project.components)
  {
  }

  lemma RoutesExist(project: Project, c: Paths, withMemory: Paths)
    requires AllAdded(map[project.yaml.path := project.yaml], project.components, c)
    requires MemoryAdded(c, project.files, project.memory, withMemory)
    ensures (exists before :: BeforeSources(project, before)) <==> RoutesFresh(project)
  {
    var start := map[project.yaml.path := project.yaml];
    forall p ensures p in withMemory.Keys <==>
      p == project.yaml.path || p in WalkedPaths(project.components) || Names(project.memory, p)
    {
      AllAddedKeys(start, project.components, c, p);
      assert p in withMemory <==> p in c || Names(project.memory, p);
    }
    AllAddedExists(withMemory, project.routes);
    if CanAddAll(withMemory, project.routes) {
      var before :| AllAdded(withMemory, project.routes, before);
      assert BeforeSources(project, before);
    } else {
      NoRoutes(project, c, withMemory);
    }
  }

  /** A project has a closure exactly when its memory references are readable, its routes
      are valid and its sources load, every walked file is regular, and no path occurs
      twice, except that a memory file may stand for a component's. */
  lemma ClosureExistsExactly(project: Project)
    ensures (exists m :: ClosureIs(project, m)) <==> Packable(project)
  {
    if (forall reference :: reference in project.memory ==> Readable(project.files, reference)) {
      EarlyExists(project);
      if exists before :: BeforeSources(project, before) {
        var before :| BeforeSources(project, before);
        forall p ensures p in before.Keys <==> TakenEarly(project, p) {
          EarlyKeys(project, before, p);
        }
        SourcesAddableExactly(project.sources, before.Keys);
        SourcesExist(project, before);
      }
    }
  }

  lemma SourcesExist(project: Project, before: Paths)
    requires BeforeSources(project, before)
    requires forall reference :: reference in project.memory ==> Readable(project.files, reference)
    ensures (exists m :: ClosureIs(project, m)) <==> project.routesValid && SourcesAddable(project.sources, before.Keys)
  {
    if SourcesAddable(project.sources, before.Keys) {
      var m := SourcesAddedExists(before, project.sources);
      assert project.routesValid ==> ClosureIs(project, m);
    } else {
      NoSources(project, before);
    }
  }
}
