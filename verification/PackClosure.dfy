/** internal/pack/pack.go, the closure of a team: which project files a pack
    carries and under which path. Directories are walked before they are added, so
    a directory is the list of files its walk visits; the project's own files are a
    map from clean path to file. */
module PackClosure {
  import opened Wrappers
  import Ordering
  import PathClean

  type Bytes = seq<bv8>

  datatype Entry = Entry(path: string, data: Bytes, mode: bv32)

  datatype Found = Found(relative: string, regular: bool, data: Bytes, mode: bv32)

  datatype Directory = Directory(destination: string, found: seq<Found>)

  datatype Source = Source(name: string, loads: bool, dir: Directory)

  datatype OnDisk = OnDisk(regular: bool, data: Bytes, mode: bv32)

  /** What the plan and the project give the closure: the rewritten project file,
      the team, agent, skill and tool directories in plan order, the memory
      references, the project's files, whether every route file is valid, the
      directories of the team's routes in discovery order and the sources those
      routes name. */
  datatype Project = Project(
    yaml: Entry,
    components: seq<Directory>,
    memory: set<string>,
    files: map<string, OnDisk>,
    routesValid: bool,
    routes: seq<Directory>,
    sources: set<Source>)

  type Paths = map<string, Entry>

  /** The pack path of a walked file. */
  function PathOf(d: Directory, f: Found): string {
    PathClean.Clean(d.destination + "/" + f.relative)
  }

  function EntryOf(d: Directory, f: Found): Entry {
    Entry(PathOf(d, f), f.data, f.mode)
  }

  /** A directory can be added: its walk meets regular files only, under paths
      that differ from each other and from those already taken. */
  ghost predicate Addable(d: Directory, taken: set<string>) {
    && (forall i :: 0 <= i < |d.found| ==> d.found[i].regular && PathOf(d, d.found[i]) !in taken)
    && (forall i, j :: 0 <= i < j < |d.found| ==> PathOf(d, d.found[i]) != PathOf(d, d.found[j]))
  }

  ghost predicate Holds(d: Directory, e: Entry) {
    exists f :: f in d.found && e == EntryOf(d, f)
  }

  /** `after` is `before` with exactly the files of `d` added. */
  ghost predicate Added(before: Paths, d: Directory, after: Paths) {
    forall p, e :: MapsTo(after, p, e) <==> MapsTo(before, p, e) || (Holds(d, e) && e.path == p)
  }

  predicate MapsTo(m: Paths, p: string, e: Entry) {
    p in m && m[p] == e
  }

  /** Adding a list of directories one after the other. */
  ghost predicate AllAdded(before: Paths, dirs: seq<Directory>, after: Paths) {
    if dirs == [] then after == before
    else
      exists middle ::
        && AllAdded(before, dirs[..|dirs| - 1], middle)
        && Addable(dirs[|dirs| - 1], middle.Keys)
        && Added(middle, dirs[|dirs| - 1], after)
  }

  /** A memory reference names a regular file inside the project. */
  predicate Readable(files: map<string, OnDisk>, reference: string) {
    var name := PathClean.Clean(reference);
    && name != "." && !("../" <= name) && !PathClean.Rooted(reference)
    && name in files && files[name].regular
  }

  ghost predicate Names(memory: set<string>, p: string) {
    exists reference :: reference in memory && PathClean.Clean(reference) == p
  }

  /** Memory files replace whatever had their path; nothing else changes. */
  ghost predicate MemoryAdded(before: Paths, files: map<string, OnDisk>, memory: set<string>, after: Paths) {
    && (forall p :: p in after <==> p in before || Names(memory, p))
    && (forall p :: p in after ==>
          if Names(memory, p) then p in files && after[p] == Entry(p, files[p].data, files[p].mode)
          else p in before && after[p] == before[p])
  }

  ghost predicate Overlaps(a: Directory, b: Directory) {
    exists f, g :: f in a.found && g in b.found && PathOf(a, f) == PathOf(b, g)
  }

  /** Every source loads and all their files have paths of their own. */
  ghost predicate SourcesAddable(sources: set<Source>, taken: set<string>) {
    && (forall s :: s in sources ==> s.loads && Addable(s.dir, taken))
    && (forall s, t :: s in sources && t in sources && s != t ==> !Overlaps(s.dir, t.dir))
  }

  ghost predicate SourceHolds(sources: set<Source>, e: Entry) {
    exists s :: s in sources && Holds(s.dir, e)
  }

  ghost predicate SourcesAdded(before: Paths, sources: set<Source>, after: Paths) {
    forall p, e :: MapsTo(after, p, e) <==> MapsTo(before, p, e) || (SourceHolds(sources, e) && e.path == p)
  }

  /** The path map before the sources are added. */
  ghost predicate BeforeSources(project: Project, after: Paths) {
    exists withComponents, withMemory ::
      && AllAdded(map[project.yaml.path := project.yaml], project.components, withComponents)
      && MemoryAdded(withComponents, project.files, project.memory, withMemory)
      && AllAdded(withMemory, project.routes, after)
  }

  /** The closure of `project` succeeds with the path map `after`. No clause
      mentions the order in which memory files or sources are taken. */
  ghost predicate ClosureIs(project: Project, after: Paths) {
    && (forall reference :: reference in project.memory ==> Readable(project.files, reference))
    && project.routesValid
    && exists before ::
         && BeforeSources(project, before)
         && SourcesAddable(project.sources, before.Keys)
         && SourcesAdded(before, project.sources, after)
  }

  /** Every entry is stored under its own path. */
  ghost predicate Keyed(m: Paths) {
    forall p :: p in m ==> m[p].path == p
  }

  predicate PathLeq(a: Entry, b: Entry) {
    Ordering.StringLeq(a.path, b.path)
  }

  /** `listing` is the values of `m`, each once, in path order. */
  ghost predicate Lists(listing: seq<Entry>, m: Paths) {
    && Ordering.Sorted(PathLeq, listing)
    && |listing| == |m|
    && (forall p :: p in m ==> m[p] in listing)
    && (forall e :: e in listing ==> MapsTo(m, e.path, e))
  }

  // ---- The steps are functions of what they add ----

  lemma SameMap(a: Paths, b: Paths)
    requires forall p, e :: MapsTo(a, p, e) <==> MapsTo(b, p, e)
    ensures a == b
  {
    forall p ensures p in a <==> p in b {
      if p in a { assert MapsTo(a, p, a[p]); }
      if p in b { assert MapsTo(b, p, b[p]); }
    }
    forall p | p in a ensures a[p] == b[p] {
      assert MapsTo(a, p, a[p]);
    }
  }

  lemma AddedDetermined(before: Paths, d: Directory, a: Paths, b: Paths)
    requires Added(before, d, a) && Added(before, d, b)
    ensures a == b
  {
    forall p, e ensures MapsTo(a, p, e) <==> MapsTo(b, p, e) {
      assert MapsTo(a, p, e) <==> MapsTo(before, p, e) || (Holds(d, e) && e.path == p);
      assert MapsTo(b, p, e) <==> MapsTo(before, p, e) || (Holds(d, e) && e.path == p);
    }
    SameMap(a, b);
  }

  lemma SourcesAddedDetermined(before: Paths, sources: set<Source>, a: Paths, b: Paths)
    requires SourcesAdded(before, sources, a) && SourcesAdded(before, sources, b)
    ensures a == b
  {
    forall p, e ensures MapsTo(a, p, e) <==> MapsTo(b, p, e) {
      assert MapsTo(a, p, e) <==> MapsTo(before, p, e) || (SourceHolds(sources, e) && e.path == p);
      assert MapsTo(b, p, e) <==> MapsTo(before, p, e) || (SourceHolds(sources, e) && e.path == p);
    }
    SameMap(a, b);
  }

  lemma {:induction false} AllAddedDetermined(before: Paths, dirs: seq<Directory>, a: Paths, b: Paths)
    requires AllAdded(before, dirs, a) && AllAdded(before, dirs, b)
    ensures a == b
  {
    if dirs != [] {
      var init, last := dirs[..|dirs| - 1], dirs[|dirs| - 1];
      var m :| AllAdded(before, init, m) && Added(m, last, a);
      var n :| AllAdded(before, init, n) && Added(n, last, b);
      AllAddedDetermined(before, init, m, n);
      AddedDetermined(m, last, a, b);
    }
  }

  lemma MemoryAddedDetermined(before: Paths, files: map<string, OnDisk>, memory: set<string>, a: Paths, b: Paths)
    requires MemoryAdded(before, files, memory, a) && MemoryAdded(before, files, memory, b)
    ensures a == b
  {
  }

  lemma BeforeSourcesDetermined(project: Project, a: Paths, b: Paths)
    requires BeforeSources(project, a) && BeforeSources(project, b)
    ensures a == b
  {
    var start := map[project.yaml.path := project.yaml];
    var c1, m1 :|
      && AllAdded(start, project.components, c1)
      && MemoryAdded(c1, project.files, project.memory, m1)
      && AllAdded(m1, project.routes, a);
    var c2, m2 :|
      && AllAdded(start, project.components, c2)
      && MemoryAdded(c2, project.files, project.memory, m2)
      && AllAdded(m2, project.routes, b);
    AllAddedDetermined(start, project.components, c1, c2);
    MemoryAddedDetermined(c1, project.files, project.memory, m1, m2);
    AllAddedDetermined(m1, project.routes, a, b);
  }

  /** Iterating the memory and source maps in any order gives the same closure. */
  lemma ClosureDetermined(project: Project, a: Paths, b: Paths)
    requires ClosureIs(project, a) && ClosureIs(project, b)
    ensures a == b
  {
    var r1 :| BeforeSources(project, r1) && SourcesAdded(r1, project.sources, a);
    var r2 :| BeforeSources(project, r2) && SourcesAdded(r2, project.sources, b);
    BeforeSourcesDetermined(project, r1, r2);
    SourcesAddedDetermined(r1, project.sources, a, b);
  }

  // ---- Order of the listing ----

  lemma PathsRanked()
    ensures Ordering.TotalPreorder(PathLeq)
  {
    Ordering.StringsTotallyOrdered();
    forall x: Entry ensures PathLeq(x, x) {
      Ordering.StringLeqReflexive(x.path);
    }
    forall x: Entry, y: Entry ensures PathLeq(x, y) || PathLeq(y, x) {
      Ordering.StringLeqTotal(x.path, y.path);
    }
    forall x: Entry, y: Entry, z: Entry | PathLeq(x, y) && PathLeq(y, z) ensures PathLeq(x, z) {
      Ordering.StringLeqTransitive(x.path, y.path, z.path);
    }
  }

  /** Entries with the same path are the same entry. */
  ghost predicate OnePerPath(entries: seq<Entry>) {
    forall e, f :: e in entries && f in entries && e.path == f.path ==> e == f
  }

  lemma PathsSeparate(entries: seq<Entry>)
    requires OnePerPath(entries)
    ensures Ordering.Separates(PathLeq, entries)
  {
    forall x, y | x in entries && y in entries && PathLeq(x, y) && PathLeq(y, x) ensures x == y {
      Ordering.StringLeqAntisymmetric(x.path, y.path);
    }
  }

  /** Two sorted sequences with the same entries are equal when paths are unique. */
  lemma OneOrder(a: seq<Entry>, b: seq<Entry>)
    requires OnePerPath(a) && multiset(a) == multiset(b)
    requires Ordering.Sorted(PathLeq, a) && Ordering.Sorted(PathLeq, b)
    ensures a == b
  {
    PathsRanked();
    PathsSeparate(a);
    Ordering.SortedUnique(PathLeq, a, b);
  }

  lemma ListedOnce(listing: seq<Entry>, m: Paths)
    requires Keyed(m) && Lists(listing, m)
    ensures multiset(listing) == multiset(m.Values)
  {
    var values := set e | e in listing;
    assert values == m.Values by {
      forall e | e in m.Values ensures e in values {
        var p :| p in m && m[p] == e;
      }
    }
    ValuesCounted(m);
    NoneTwice(listing);
  }

  lemma {:induction false} ValuesCounted(m: Paths)
    requires Keyed(m)
    ensures |m.Values| == |m|
    decreases |m|
  {
    if m != map[] {
      var p :| p in m;
      var rest := m - {p};
      ValuesCounted(rest);
      assert m.Values == rest.Values + {m[p]} by {
        forall e | e in m.Values ensures e in rest.Values + {m[p]} {
          var q :| q in m && m[q] == e;
          assert q != p ==> q in rest && rest[q] == e;
        }
      }
      assert m[p] !in rest.Values;
      assert m.Keys == rest.Keys + {p};
    } else {
      assert m.Values == {};
    }
  }

  /** A sequence no longer than the set of its elements repeats none. */
  lemma {:induction false} NoneTwice(s: seq<Entry>)
    ensures |(set e | e in s)| <= |s|
    ensures |(set e | e in s)| == |s| ==> multiset(s) == multiset(set e | e in s)
  {
    var all := set e | e in s;
    if s == [] {
      assert all == {};
    } else {
      var init, last := s[..|s| - 1], s[|s| - 1];
      var most := set e | e in init;
      assert s == init + [last];
      assert all == most + {last};
      NoneTwice(init);
      if |all| == |s| {
        assert last !in most;
        assert multiset(s) == multiset(init) + multiset{last};
      }
    }
  }

  /** However the path map is iterated, the closure's entries come in one order. */
  lemma ListingDetermined(a: seq<Entry>, b: seq<Entry>, m: Paths)
    requires Keyed(m) && Lists(a, m) && Lists(b, m)
    ensures a == b
  {
    ListedOnce(a, m);
    ListedOnce(b, m);
    OneOrder(a, b);
  }

  lemma RepeatCounts(s: seq<Entry>, i: nat, j: nat)
    requires i < j < |s|
    ensures s[i] == s[j] ==> multiset(s)[s[j]] >= 2
  {
    if s[i] == s[j] {
      assert s == s[..j] + s[j..];
      assert s[..j][i] in multiset(s[..j]) && s[j..][0] in multiset(s[j..]);
    }
  }

  /** A listing has one entry for each path. */
  lemma ListingPathsDiffer(listing: seq<Entry>, m: Paths, i: nat, j: nat)
    requires Keyed(m) && Lists(listing, m) && i < j < |listing|
    ensures listing[i].path != listing[j].path
  {
    ListedOnce(listing, m);
    assert listing[i] in listing && listing[j] in listing;
    RepeatCounts(listing, i, j);
  }

  // ---- Which paths a closure has ----

  const KINDS := ["teams", "agents", "skills", "tools", "routes", "sources"]

  ghost predicate OwnDirectory(p: string) {
    exists kind :: kind in KINDS && kind + "/" <= p
  }

  ghost predicate DirsPlaced(dirs: seq<Directory>) {
    forall d, f :: d in dirs && f in d.found ==> OwnDirectory(PathOf(d, f))
  }

  /** Component names are checked when they are loaded, so every walked file lies
      in the directory of its kind; the project's parent is a directory. */
  ghost predicate WellPlaced(project: Project) {
    && project.yaml.path == "agentworks.yaml"
    && DirsPlaced(project.components) && DirsPlaced(project.routes)
    && (forall s :: s in project.sources ==> DirsPlaced([s.dir]))
    && ".." !in project.files
  }

  /** A clean relative path to something inside its directory. */
  predicate Inside(p: string) {
    && !PathClean.Rooted(p) && PathClean.Clean(p) == p
    && p != "." && p != ".." && !("../" <= p)
  }

  lemma WalkedPathInside(d: Directory, f: Found)
    requires OwnDirectory(PathOf(d, f))
    ensures Inside(PathOf(d, f)) && PathOf(d, f) != "pack.json"
  {
    var kind :| kind in KINDS && kind + "/" <= PathOf(d, f);
    var p := PathOf(d, f);
    assert |kind| > 2 && p[0] == kind[0] && p[2] == kind[2] && p[|kind|] == '/';
    PathClean.CleanIdempotent(d.destination + "/" + f.relative);
  }

  /** `after` has the paths of `before` and only inside paths besides, none of them
      the manifest's. */
  ghost predicate Grown(before: Paths, after: Paths) {
    && before.Keys <= after.Keys
    && (forall p :: p in after && p !in before ==> Inside(p) && p != "pack.json")
    && (Keyed(before) ==> Keyed(after))
  }

  lemma AddedGrows(before: Paths, d: Directory, after: Paths)
    requires DirsPlaced([d]) && Added(before, d, after)
    ensures Grown(before, after)
  {
    forall p | p in before ensures p in after {
      assert MapsTo(before, p, before[p]);
      assert MapsTo(after, p, before[p]);
    }
    forall p | p in after
      ensures p in before || (Inside(p) && p != "pack.json")
      ensures Keyed(before) ==> after[p].path == p
    {
      assert MapsTo(after, p, after[p]);
      if Holds(d, after[p]) && after[p].path == p {
        var f :| f in d.found && after[p] == EntryOf(d, f);
        assert d in [d];
        WalkedPathInside(d, f);
      } else {
        assert MapsTo(before, p, after[p]);
      }
    }
  }

  lemma {:induction false} AllAddedGrows(before: Paths, dirs: seq<Directory>, after: Paths)
    requires DirsPlaced(dirs) && AllAdded(before, dirs, after)
    ensures Grown(before, after)
  {
    if dirs != [] {
      var init, last := dirs[..|dirs| - 1], dirs[|dirs| - 1];
      var middle :| AllAdded(before, init, middle) && Added(middle, last, after);
      AllAddedGrows(before, init, middle);
      assert last in dirs;
      AddedGrows(middle, last, after);
    }
  }

  lemma SourcesGrow(before: Paths, sources: set<Source>, after: Paths)
    requires forall s :: s in sources ==> DirsPlaced([s.dir])
    requires SourcesAdded(before, sources, after)
    ensures Grown(before, after)
  {
    forall p | p in before ensures p in after {
      assert MapsTo(before, p, before[p]);
      assert MapsTo(after, p, before[p]);
    }
    forall p | p in after
      ensures p in before || (Inside(p) && p != "pack.json")
      ensures Keyed(before) ==> after[p].path == p
    {
      assert MapsTo(after, p, after[p]);
      if SourceHolds(sources, after[p]) && after[p].path == p {
        var s :| s in sources && Holds(s.dir, after[p]);
        var f :| f in s.dir.found && after[p] == EntryOf(s.dir, f);
        assert s.dir in [s.dir];
        WalkedPathInside(s.dir, f);
      } else {
        assert MapsTo(before, p, after[p]);
      }
    }
  }

  lemma MemoryPathInside(files: map<string, OnDisk>, reference: string)
    requires Readable(files, reference) && ".." !in files
    ensures Inside(PathClean.Clean(reference))
  {
    PathClean.CleanIdempotent(reference);
  }

  /** Keyed by path, inside the pack, and with a pack.json exactly if `packJson`. */
  ghost predicate PathsAre(m: Paths, packJson: bool) {
    && Keyed(m)
    && (forall p :: p in m ==> Inside(p))
    && ("pack.json" in m <==> packJson)
  }

  lemma GrownPaths(before: Paths, after: Paths, packJson: bool)
    requires Grown(before, after) && PathsAre(before, packJson)
    ensures PathsAre(after, packJson)
  {
  }

  lemma MemoryPaths(before: Paths, files: map<string, OnDisk>, memory: set<string>, after: Paths)
    requires PathsAre(before, false) && MemoryAdded(before, files, memory, after) && ".." !in files
    requires forall reference :: reference in memory ==> Readable(files, reference)
    ensures PathsAre(after, Names(memory, "pack.json"))
  {
    forall p | p in after ensures Inside(p) && after[p].path == p && (p == "pack.json" ==> Names(memory, p)) {
      if Names(memory, p) {
        var reference :| reference in memory && PathClean.Clean(reference) == p;
        MemoryPathInside(files, reference);
      }
    }
    if Names(memory, "pack.json") {
      var reference :| reference in memory && PathClean.Clean(reference) == "pack.json";
      assert "pack.json" in after.Keys;
    }
  }

  lemma ComponentPaths(project: Project, after: Paths)
    requires WellPlaced(project)
    requires AllAdded(map[project.yaml.path := project.yaml], project.components, after)
    ensures PathsAre(after, false)
  {
    var start := map[project.yaml.path := project.yaml];
    YamlInside();
    AllAddedGrows(start, project.components, after);
    GrownPaths(start, after, false);
  }

  lemma PathsBeforeSources(project: Project, before: Paths)
    requires WellPlaced(project) && BeforeSources(project, before)
    requires forall reference :: reference in project.memory ==> Readable(project.files, reference)
    ensures PathsAre(before, Names(project.memory, "pack.json"))
  {
    var c, withMemory :|
      && AllAdded(map[project.yaml.path := project.yaml], project.components, c)
      && MemoryAdded(c, project.files, project.memory, withMemory)
      && AllAdded(withMemory, project.routes, before);
    ComponentPaths(project, c);
    MemoryPaths(c, project.files, project.memory, withMemory);
    AllAddedGrows(withMemory, project.routes, before);
    GrownPaths(withMemory, before, Names(project.memory, "pack.json"));
  }

  /** Every path of a closure stays inside the pack, and a closure has a file named
      pack.json exactly when a memory reference cleans to that name. */
  lemma ClosurePaths(project: Project, m: Paths)
    requires WellPlaced(project) && ClosureIs(project, m)
    ensures Keyed(m) && forall p :: p in m ==> Inside(p)
    ensures "pack.json" in m <==> Names(project.memory, "pack.json")
  {
    var before :| BeforeSources(project, before) && SourcesAdded(before, project.sources, m);
    PathsBeforeSources(project, before);
    SourcesGrow(before, project.sources, m);
    GrownPaths(before, m, Names(project.memory, "pack.json"));
  }

  lemma AddedKeeps(before: Paths, d: Directory, after: Paths, p: string)
    requires Added(before, d, after) && p in before
    ensures p in after && after[p] == before[p]
  {
    assert MapsTo(before, p, before[p]);
    assert MapsTo(after, p, before[p]);
  }

  lemma {:induction false} AllAddedKeeps(before: Paths, dirs: seq<Directory>, after: Paths, p: string)
    requires AllAdded(before, dirs, after) && p in before
    ensures p in after && after[p] == before[p]
  {
    if dirs != [] {
      var init, last := dirs[..|dirs| - 1], dirs[|dirs| - 1];
      var middle :| AllAdded(before, init, middle) && Added(middle, last, after);
      AllAddedKeeps(before, init, middle, p);
      AddedKeeps(middle, last, after, p);
    }
  }

  lemma MemoryFileAdded(before: Paths, files: map<string, OnDisk>, memory: set<string>, after: Paths, p: string)
    requires MemoryAdded(before, files, memory, after) && Names(memory, p)
    ensures p in after && p in files && after[p] == Entry(p, files[p].data, files[p].mode)
  {
  }

  lemma SourcesKeep(before: Paths, sources: set<Source>, after: Paths, p: string)
    requires SourcesAdded(before, sources, after) && p in before
    ensures p in after && after[p] == before[p]
  {
    assert MapsTo(before, p, before[p]);
    assert MapsTo(after, p, before[p]);
  }

  lemma MemoryFileBeforeSources(project: Project, before: Paths, p: string)
    requires BeforeSources(project, before) && Names(project.memory, p)
    ensures p in before && p in project.files
    ensures before[p] == Entry(p, project.files[p].data, project.files[p].mode)
  {
    var c, withMemory :|
      && AllAdded(map[project.yaml.path := project.yaml], project.components, c)
      && MemoryAdded(c, project.files, project.memory, withMemory)
      && AllAdded(withMemory, project.routes, before);
    MemoryFileAdded(c, project.files, project.memory, withMemory, p);
    AllAddedKeeps(withMemory, project.routes, before, p);
  }

  /** A memory file is in the closure as it is in the project: what is added after it
      never replaces it. */
  lemma MemoryFileInClosure(project: Project, m: Paths, p: string)
    requires ClosureIs(project, m) && Names(project.memory, p)
    ensures p in m && p in project.files && m[p] == Entry(p, project.files[p].data, project.files[p].mode)
  {
    var before :| BeforeSources(project, before) && SourcesAdded(before, project.sources, m);
    MemoryFileBeforeSources(project, before, p);
    SourcesKeep(before, project.sources, m, p);
  }

  // ---- What a closure carries -----------------------------------------------

  /** The entry is a file of the directory: its path is cleaned, its bytes and its mode
      are the file's own. */
  ghost predicate Carries(d: Directory, e: Entry) {
    exists f :: f in d.found && e.path == PathClean.Clean(d.destination + "/" + f.relative)
      && e.data == f.data && e.mode == f.mode
  }

  ghost predicate AnyCarries(dirs: seq<Directory>, e: Entry) {
    exists d :: d in dirs && Carries(d, e)
  }

  ghost predicate AnySourceCarries(sources: set<Source>, e: Entry) {
    exists s :: s in sources && Carries(s.dir, e)
  }

  lemma HoldsWhatItCarries(d: Directory, e: Entry)
    ensures Holds(d, e) <==> Carries(d, e)
  {
    if Holds(d, e) {
      var f :| f in d.found && e == EntryOf(d, f);
    }
    if Carries(d, e) {
      var f :| f in d.found && e.path == PathClean.Clean(d.destination + "/" + f.relative)
            && e.data == f.data && e.mode == f.mode;
      assert e == EntryOf(d, f);
    }
  }

  lemma AddedExactly(before: Paths, d: Directory, after: Paths, p: string, e: Entry)
    requires Added(before, d, after)
    ensures MapsTo(after, p, e) <==> MapsTo(before, p, e) || (Carries(d, e) && e.path == p)
  {
    HoldsWhatItCarries(d, e);
  }

  /** Adding directories adds exactly what they carry. */
  lemma {:induction false} AllAddedExactly(before: Paths, dirs: seq<Directory>, after: Paths, p: string, e: Entry)
    requires AllAdded(before, dirs, after)
    ensures MapsTo(after, p, e) <==> MapsTo(before, p, e) || (AnyCarries(dirs, e) && e.path == p)
  {
    if dirs != [] {
      var init, last := dirs[..|dirs| - 1], dirs[|dirs| - 1];
      var middle :| AllAdded(before, init, middle) && Added(middle, last, after);
      AllAddedExactly(before, init, middle, p, e);
      AddedExactly(middle, last, after, p, e);
      assert dirs == init + [last];
      assert AnyCarries(dirs, e) <==> AnyCarries(init, e) || Carries(last, e);
    }
  }

  lemma SourcesAddedExactly(before: Paths, sources: set<Source>, after: Paths, p: string, e: Entry)
    requires SourcesAdded(before, sources, after)
    ensures MapsTo(after, p, e) <==> MapsTo(before, p, e) || (AnySourceCarries(sources, e) && e.path == p)
  {
    forall s | s in sources ensures Holds(s.dir, e) <==> Carries(s.dir, e) {
      HoldsWhatItCarries(s.dir, e);
    }
    assert SourceHolds(sources, e) <==> AnySourceCarries(sources, e);
  }

  /** The project's own file, or the memory file that replaces what had its path. */
  ghost predicate CarriedEarly(project: Project, p: string, e: Entry) {
    if Names(project.memory, p) then
      p in project.files && e == Entry(p, project.files[p].data, project.files[p].mode)
    else
      e == project.yaml || AnyCarries(project.components, e)
  }

  lemma BeforeSourcesExactly(project: Project, before: Paths, p: string, e: Entry)
    requires BeforeSources(project, before)
    ensures MapsTo(before, p, e) <==> e.path == p && (CarriedEarly(project, p, e) || AnyCarries(project.routes, e))
  {
    var start := map[project.yaml.path := project.yaml];
    var c, withMemory :|
      && AllAdded(start, project.components, c)
      && MemoryAdded(c, project.files, project.memory, withMemory)
      && AllAdded(withMemory, project.routes, before);
    AllAddedExactly(start, project.components, c, p, e);
    AllAddedExactly(withMemory, project.routes, before, p, e);
    assert MapsTo(start, p, e) <==> e == project.yaml && e.path == p;
    WithMemoryExactly(c, project.files, project.memory, withMemory, p, e);
  }

  lemma WithMemoryExactly(before: Paths, files: map<string, OnDisk>, memory: set<string>, after: Paths,
                          p: string, e: Entry)
    requires MemoryAdded(before, files, memory, after)
    ensures MapsTo(after, p, e) <==>
      if Names(memory, p) then p in files && e == Entry(p, files[p].data, files[p].mode) else MapsTo(before, p, e)
  {
    assert p in after <==> p in before || Names(memory, p);
  }

  /** A closure holds under each path exactly the file that the project has for it: the
      project file, the walked files of its components, routes and sources with their
      bytes and modes, and its memory files in place of any component file of the same
      path. */
  lemma ClosureExactly(project: Project, m: Paths, p: string, e: Entry)
    requires ClosureIs(project, m)
    ensures MapsTo(m, p, e) <==>
      && e.path == p
      && (|| CarriedEarly(project, p, e)
          || AnyCarries(project.routes, e) || AnySourceCarries(project.sources, e))
  {
    var before :| BeforeSources(project, before) && SourcesAdded(before, project.sources, m);
    BeforeSourcesExactly(project, before, p, e);
    SourcesAddedExactly(before, project.sources, m, p, e);
  }

  /** A memory reference is readable exactly when it leads from the project to a regular
      file below it. */
  lemma ReadableExactly(files: map<string, OnDisk>, reference: string)
    requires ".." !in files
    ensures Readable(files, reference) <==>
      && !PathClean.Rooted(reference)
      && var place := PathClean.Leads(false, [], PathClean.Split(reference));
         place.Some? && place.value != []
         && PathClean.Join(place.value) in files && files[PathClean.Join(place.value)].regular
  {
    if !PathClean.Rooted(reference) {
      PathClean.ParentSegmentShows(reference);
      PathClean.StaysInsideExactly(reference, []);
      PathClean.CleanIsDot(reference);
      assert [] + PathClean.CleanSegments(reference) == PathClean.CleanSegments(reference);
    }
  }

  lemma YamlInside()
    ensures Inside("agentworks.yaml")
  {
    var yaml := ["agentworks.yaml"];
    PathClean.SplitAtSlash("agentworks.yaml", "");
    PathClean.PushAllKeepsClean([], yaml);
    assert [] + yaml == yaml;
  }

  // ---- The builder ----

  /** The first `n` files of a walk. */
  function Prefix(d: Directory, n: nat): Directory
    requires n <= |d.found|
  {
    Directory(d.destination, d.found[..n])
  }

  lemma OneMoreAddable(before: Paths, d: Directory, i: nat, now: Paths)
    requires i < |d.found|
    requires Addable(Prefix(d, i), before.Keys) && Added(before, Prefix(d, i), now)
    ensures d.found[i].regular && PathOf(d, d.found[i]) !in now <==> Addable(Prefix(d, i + 1), before.Keys)
  {
    var more, f := Prefix(d, i + 1), d.found[i];
    assert more.found == d.found[..i] + [f];
    if PathOf(d, f) in now {
      TakenByNow(before, d, i, now);
    } else {
      FreeInNow(before, d, i, now);
    }
  }

  lemma TakenByNow(before: Paths, d: Directory, i: nat, now: Paths)
    requires i < |d.found| && Added(before, Prefix(d, i), now) && PathOf(d, d.found[i]) in now
    ensures !Addable(Prefix(d, i + 1), before.Keys)
  {
    var less, more, p := Prefix(d, i), Prefix(d, i + 1), PathOf(d, d.found[i]);
    assert more.found[i] == d.found[i];
    assert MapsTo(now, p, now[p]);
    if !MapsTo(before, p, now[p]) {
      var g :| g in less.found && now[p] == EntryOf(less, g);
      var k :| 0 <= k < i && less.found[k] == g;
      assert more.found[k] == g;
    }
  }

  lemma FreeInNow(before: Paths, d: Directory, i: nat, now: Paths)
    requires i < |d.found| && Added(before, Prefix(d, i), now) && PathOf(d, d.found[i]) !in now
    ensures PathOf(d, d.found[i]) !in before
    ensures forall k :: 0 <= k < i ==> PathOf(d, d.found[k]) != PathOf(d, d.found[i])
  {
    var less, p := Prefix(d, i), PathOf(d, d.found[i]);
    forall q | q in before ensures q in now {
      AddedKeeps(before, less, now, q);
    }
    forall k | 0 <= k < i ensures PathOf(d, d.found[k]) != p {
      var e := EntryOf(less, less.found[k]);
      assert less.found[k] in less.found && Holds(less, e);
      assert MapsTo(now, e.path, e);
    }
  }

  lemma OneMoreAdded(before: Paths, d: Directory, i: nat, now: Paths)
    requires i < |d.found| && Added(before, Prefix(d, i), now) && PathOf(d, d.found[i]) !in now
    ensures Added(before, Prefix(d, i + 1), now[PathOf(d, d.found[i]) := EntryOf(d, d.found[i])])
  {
    var less, more, last := Prefix(d, i), Prefix(d, i + 1), EntryOf(d, d.found[i]);
    var after := now[last.path := last];
    HoldsMore(d, i);
    forall q, e ensures MapsTo(after, q, e) <==> MapsTo(before, q, e) || (Holds(more, e) && e.path == q) {
      assert MapsTo(now, q, e) <==> MapsTo(before, q, e) || (Holds(less, e) && e.path == q);
      assert MapsTo(after, q, e) <==> MapsTo(now, q, e) || (e == last && q == last.path);
    }
  }

  lemma HoldsMore(d: Directory, i: nat)
    requires i < |d.found|
    ensures forall e :: Holds(Prefix(d, i + 1), e) <==> Holds(Prefix(d, i), e) || e == EntryOf(d, d.found[i])
  {
    var less, more, f := Prefix(d, i), Prefix(d, i + 1), d.found[i];
    assert more.found == less.found + [f];
    forall e ensures Holds(more, e) <==> Holds(less, e) || e == EntryOf(d, f) {
      if Holds(more, e) {
        var g :| g in more.found && e == EntryOf(more, g);
        assert g in less.found || g == f;
      }
      if Holds(less, e) {
        var g :| g in less.found && e == EntryOf(less, g);
        assert g in more.found;
      }
      if e == EntryOf(d, f) {
        assert f in more.found;
      }
    }
  }

  lemma AddableParts(d: Directory, i: nat, taken: set<string>)
    requires i <= |d.found| && Addable(d, taken)
    ensures Addable(Prefix(d, i), taken)
  {
  }

  /** Adding one more source to those done keeps the set form of the specification. */
  lemma OneMoreSource(before: Paths, finished: set<Source>, now: Paths, s: Source)
    requires SourcesAddable(finished, before.Keys) && SourcesAdded(before, finished, now) && s !in finished
    ensures s.loads && Addable(s.dir, now.Keys) <==> SourcesAddable(finished + {s}, before.Keys)
  {
    if s.loads && Addable(s.dir, now.Keys) {
      forall p | p in before ensures p in now {
        assert MapsTo(before, p, before[p]);
        assert MapsTo(now, p, before[p]);
      }
      forall t | t in finished ensures !Overlaps(s.dir, t.dir) && !Overlaps(t.dir, s.dir) {
        FinishedPathsTaken(before, finished, now, t);
      }
      assert SourcesAddable(finished + {s}, before.Keys);
    }
    if SourcesAddable(finished + {s}, before.Keys) {
      assert s in finished + {s};
      forall i | 0 <= i < |s.dir.found| ensures PathOf(s.dir, s.dir.found[i]) !in now {
        var p := PathOf(s.dir, s.dir.found[i]);
        if p in now {
          assert MapsTo(now, p, now[p]) && !MapsTo(before, p, now[p]);
          var t :| t in finished && Holds(t.dir, now[p]);
          assert t in finished + {s} && Overlaps(s.dir, t.dir);
        }
      }
    }
  }

  lemma FinishedPathsTaken(before: Paths, finished: set<Source>, now: Paths, t: Source)
    requires SourcesAdded(before, finished, now) && t in finished
    ensures forall f :: f in t.dir.found ==> PathOf(t.dir, f) in now
  {
    forall f | f in t.dir.found ensures PathOf(t.dir, f) in now {
      var e := EntryOf(t.dir, f);
      assert Holds(t.dir, e) && SourceHolds(finished, e);
      assert MapsTo(now, e.path, e);
    }
  }

  lemma SourceJoins(before: Paths, finished: set<Source>, now: Paths, s: Source, after: Paths)
    requires SourcesAdded(before, finished, now) && Added(now, s.dir, after)
    ensures SourcesAdded(before, finished + {s}, after)
  {
  }

  /** The path map that the closure fills step by step. */
  class Builder {
    var byPath: Paths

    constructor (yaml: Entry)
      ensures byPath == map[yaml.path := yaml]
    {
      byPath := map[yaml.path := yaml];
    }

    /** Adds the walked files of one directory, refusing a path already taken. */
    method AddDir(d: Directory) returns (ok: bool)
      modifies this
      ensures ok <==> Addable(d, old(byPath).Keys)
      ensures ok ==> Added(old(byPath), d, byPath)
    {
      ghost var before := byPath;
      for i := 0 to |d.found|
        invariant Addable(Prefix(d, i), before.Keys) && Added(before, Prefix(d, i), byPath)
      {
        var f := d.found[i];
        var name := PathOf(d, f);
        OneMoreAddable(before, d, i, byPath);
        if !f.regular || name in byPath {
          if Addable(d, before.Keys) {
            AddableParts(d, i + 1, before.Keys);
          }
          return false;
        }
        OneMoreAdded(before, d, i, byPath);
        byPath := byPath[name := EntryOf(d, f)];
      }
      assert Prefix(d, |d.found|) == d;
      return true;
    }

    method AddDirs(dirs: seq<Directory>) returns (ok: bool)
      modifies this
      ensures ok <==> exists after :: AllAdded(old(byPath), dirs, after)
      ensures ok ==> AllAdded(old(byPath), dirs, byPath)
    {
      ghost var before := byPath;
      for i := 0 to |dirs|
        invariant AllAdded(before, dirs[..i], byPath)
      {
        ghost var middle := byPath;
        assert dirs[..i + 1][..i] == dirs[..i];
        ok := AddDir(dirs[i]);
        if !ok {
          StuckAt(before, dirs, i, middle);
          return;
        }
      }
      assert dirs[..|dirs|] == dirs;
      assert AllAdded(before, dirs, byPath);
      return true;
    }

    /** Adds one memory file, replacing an entry that has its path. */
    method AddSingleFile(files: map<string, OnDisk>, reference: string) returns (ok: bool)
      modifies this
      ensures ok <==> Readable(files, reference)
      ensures byPath == if !ok then old(byPath) else
        var name := PathClean.Clean(reference);
        old(byPath)[name := Entry(name, files[name].data, files[name].mode)]
    {
      var name := PathClean.Clean(reference);
      if name == "." || "../" <= name || PathClean.Rooted(reference) {
        return false;
      }
      if name !in files || !files[name].regular {
        return false;
      }
      byPath := byPath[name := Entry(name, files[name].data, files[name].mode)];
      return true;
    }

    /** Takes the memory references in any order. */
    method AddMemory(files: map<string, OnDisk>, memory: set<string>) returns (ok: bool)
      modifies this
      ensures ok <==> forall reference :: reference in memory ==> Readable(files, reference)
      ensures ok ==> MemoryAdded(old(byPath), files, memory, byPath)
    {
      ghost var before := byPath;
      var todo := memory;
      while todo != {}
        invariant todo <= memory
        invariant forall reference :: reference in memory - todo ==> Readable(files, reference)
        invariant MemoryAdded(before, files, memory - todo, byPath)
        decreases todo
      {
        var reference :| reference in todo;
        ghost var middle := byPath;
        ok := AddSingleFile(files, reference);
        if !ok {
          return;
        }
        OneMoreMemory(before, files, memory - todo, middle, reference);
        assert memory - (todo - {reference}) == memory - todo + {reference};
        todo := todo - {reference};
      }
      assert memory - todo == memory;
      return true;
    }

    /** Takes the sources in any order. */
    method AddSources(sources: set<Source>) returns (ok: bool)
      modifies this
      ensures ok <==> SourcesAddable(sources, old(byPath).Keys)
      ensures ok ==> SourcesAdded(old(byPath), sources, byPath)
    {
      ghost var before := byPath;
      var todo := sources;
      while todo != {}
        invariant todo <= sources
        invariant SourcesAddable(sources - todo, before.Keys)
        invariant SourcesAdded(before, sources - todo, byPath)
        decreases todo
      {
        var s :| s in todo;
        ghost var middle := byPath;
        OneMoreSource(before, sources - todo, byPath, s);
        assert sources - (todo - {s}) == sources - todo + {s};
        if !s.loads {
          return false;
        }
        ok := AddDir(s.dir);
        if !ok {
          return;
        }
        SourceJoins(before, sources - todo, middle, s, byPath);
        todo := todo - {s};
      }
      assert sources - todo == sources;
      return true;
    }

    /** Takes the collected entries in any order and sorts them. */
    method Collect() returns (listing: seq<Entry>)
      requires Keyed(byPath)
      ensures Lists(listing, byPath)
    {
      var entries: seq<Entry> := [];
      var todo := byPath.Keys;
      while todo != {}
        invariant todo <= byPath.Keys && |entries| + |todo| == |byPath|
        invariant forall p :: p in byPath && p !in todo ==> byPath[p] in entries
        invariant forall e :: e in entries ==> MapsTo(byPath, e.path, e)
        decreases todo
      {
        var p :| p in todo;
        entries := entries + [byPath[p]];
        todo := todo - {p};
      }
      listing := Ordering.Sort(PathLeq, entries);
      PathsRanked();
      Ordering.SortOrders(PathLeq, entries);
      Ordering.SortKeepsElements(PathLeq, entries);
      SameLength(entries, listing);
    }

    /** The whole closure: succeeds exactly when the steps can all be taken, and
        lists exactly the files they give. */
    method Closure(project: Project) returns (r: Option<seq<Entry>>)
      requires Keyed(byPath) && byPath == map[project.yaml.path := project.yaml]
      requires WellPlaced(project)
      modifies this
      ensures r.Some? <==> exists m :: ClosureIs(project, m)
      ensures r.Some? ==> ClosureIs(project, byPath) && Lists(r.value, byPath)
    {
      var ok := AddDirs(project.components);
      if !ok {
        ClosureNeedsComponents(project);
        return None;
      }
      ghost var withComponents := byPath;
      ok := AddMemory(project.files, project.memory);
      if !ok {
        return None;
      }
      ghost var withMemory := byPath;
      if !project.routesValid {
        return None;
      }
      ok := AddDirs(project.routes);
      if !ok {
        NoRoutes(project, withComponents, withMemory);
        return None;
      }
      ghost var before := byPath;
      assert BeforeSources(project, before);
      ok := AddSources(project.sources);
      if !ok {
        NoSources(project, before);
        return None;
      }
      assert ClosureIs(project, byPath);
      ClosurePaths(project, byPath);
      var listing := Collect();
      return Some(listing);
    }
  }

  lemma SameLength(a: seq<Entry>, b: seq<Entry>)
    requires multiset(a) == multiset(b)
    ensures |a| == |b| && forall e :: e in a <==> e in b
  {
    assert |multiset(a)| == |a| && |multiset(b)| == |b|;
    forall e ensures e in a <==> e in b {
      Ordering.SameMembers(a, b, e);
    }
  }

  lemma OneMoreName(memory: set<string>, reference: string)
    ensures forall p :: Names(memory + {reference}, p) <==> Names(memory, p) || p == PathClean.Clean(reference)
  {
  }

  lemma OneMoreMemory(before: Paths, files: map<string, OnDisk>, memory: set<string>, now: Paths, reference: string)
    requires MemoryAdded(before, files, memory, now) && Readable(files, reference)
    ensures var name := PathClean.Clean(reference);
      MemoryAdded(before, files, memory + {reference}, now[name := Entry(name, files[name].data, files[name].mode)])
  {
    var name := PathClean.Clean(reference);
    OneMoreName(memory, reference);
    var added := Entry(name, files[name].data, files[name].mode);
    forall p ensures p in now[name := added] <==> p in before || Names(memory + {reference}, p) {
    }
  }

  /** When the step at `i` cannot be taken the whole list cannot be. */
  lemma {:induction false} StuckAt(before: Paths, dirs: seq<Directory>, i: nat, middle: Paths)
    requires i < |dirs| && AllAdded(before, dirs[..i], middle) && !Addable(dirs[i], middle.Keys)
    ensures !exists after :: AllAdded(before, dirs, after)
    decreases |dirs|
  {
    forall after | AllAdded(before, dirs, after) ensures false {
      var init, last := dirs[..|dirs| - 1], dirs[|dirs| - 1];
      var m :| AllAdded(before, init, m) && Addable(last, m.Keys);
      if i == |dirs| - 1 {
        AllAddedDetermined(before, init, m, middle);
      } else {
        assert init[..i] == dirs[..i];
        StuckAt(before, init, i, middle);
      }
    }
  }

  lemma ClosureNeedsComponents(project: Project)
    ensures (exists m :: ClosureIs(project, m)) ==>
      exists after :: AllAdded(map[project.yaml.path := project.yaml], project.components, after)
  {
  }

  lemma NoRoutes(project: Project, withComponents: Paths, withMemory: Paths)
    requires AllAdded(map[project.yaml.path := project.yaml], project.components, withComponents)
    requires MemoryAdded(withComponents, project.files, project.memory, withMemory)
    requires !exists after :: AllAdded(withMemory, project.routes, after)
    ensures !exists before :: BeforeSources(project, before)
  {
    var start := map[project.yaml.path := project.yaml];
    forall before | BeforeSources(project, before) ensures false {
      var c, m :|
        && AllAdded(start, project.components, c)
        && MemoryAdded(c, project.files, project.memory, m)
        && AllAdded(m, project.routes, before);
      AllAddedDetermined(start, project.components, c, withComponents);
      MemoryAddedDetermined(c, project.files, project.memory, m, withMemory);
    }
  }

  lemma NoSources(project: Project, before: Paths)
    requires BeforeSources(project, before) && !SourcesAddable(project.sources, before.Keys)
    ensures !exists m :: ClosureIs(project, m)
  {
    forall m | ClosureIs(project, m) ensures false {
      var r :| BeforeSources(project, r) && SourcesAddable(project.sources, r.Keys);
      BeforeSourcesDetermined(project, r, before);
    }
  }
}
