/** From a project to an installed pack: when a pack that was made is extracted and
    accepted again, and that packing is deterministic. */
module PackInstall {
  import opened Wrappers
  import opened PackClosure
  import opened PackArchive
  import Ordering
  import PathClean

  ghost predicate HasPath(entries: seq<Entry>, path: string) {
    exists e :: e in entries && e.path == path
  }

  /** What the closure of a project hands to Create. */
  ghost predicate WellFormed(closure: seq<Entry>) {
    && (forall e :: e in closure ==> Inside(e.path))
    && (forall i, j :: 0 <= i < j < |closure| ==> closure[i].path != closure[j].path)
  }

  lemma ArchiveMembers(codec: Codec, closure: seq<Entry>, manifest: Manifest, archive: seq<Entry>)
    requires IsArchive(codec, closure, manifest, archive)
    ensures forall e :: e in archive <==> e in closure || e == ManifestEntry(codec, manifest)
  {
    forall e ensures e in archive <==> e in closure || e == ManifestEntry(codec, manifest) {
      assert e in archive <==> e in multiset(archive);
      assert e in closure <==> e in multiset(closure);
    }
  }

  lemma ManifestNameInside()
    ensures Inside(MANIFEST_NAME)
  {
    var name := [MANIFEST_NAME];
    PathClean.SplitAtSlash(MANIFEST_NAME, "");
    PathClean.PushAllKeepsClean([], name);
    assert [] + name == name;
  }

  /** Where only one entry has a path, extraction finds its content there, whatever
      the order of the entries. */
  lemma {:induction false} ExtractAt(archive: seq<Entry>, e: Entry)
    requires e in archive && forall f :: f in archive && f.path == e.path ==> f == e
    requires forall f :: f in archive ==> PathClean.Clean(f.path) == f.path
    ensures e.path in Extract(archive) && Extract(archive)[e.path] == Node(true, e.data)
  {
    var init, last := archive[..|archive| - 1], archive[|archive| - 1];
    assert archive == init + [last];
    if last.path != e.path {
      ExtractAt(init, e);
    }
  }

  /** Where several have it, it finds the content of one of them. */
  lemma {:induction false} ExtractSome(archive: seq<Entry>, path: string) returns (e: Entry)
    requires forall f :: f in archive ==> PathClean.Clean(f.path) == f.path
    requires path in Extract(archive)
    ensures e in archive && e.path == path && Extract(archive)[path] == Node(true, e.data)
  {
    var init, last := archive[..|archive| - 1], archive[|archive| - 1];
    assert archive == init + [last];
    e := last;
    if last.path != path {
      e := ExtractSome(init, path);
    }
  }

  lemma {:induction false} ExtractedRegular(archive: seq<Entry>)
    ensures forall p :: p in Extract(archive) ==> Extract(archive)[p].regular
  {
    if archive != [] {
      ExtractedRegular(archive[..|archive| - 1]);
    }
  }

  lemma ArchiveOnePerPath(codec: Codec, closure: seq<Entry>, manifest: Manifest, archive: seq<Entry>)
    requires IsArchive(codec, closure, manifest, archive) && WellFormed(closure) && !HasPath(closure, MANIFEST_NAME)
    ensures OnePerPath(archive)
  {
    ArchiveMembers(codec, closure, manifest, archive);
    forall e, f | e in archive && f in archive && e.path == f.path ensures e == f {
      if e in closure && f in closure {
        var i :| 0 <= i < |closure| && closure[i] == e;
        var j :| 0 <= j < |closure| && closure[j] == f;
      }
    }
  }

  lemma ExtractedPaths(codec: Codec, closure: seq<Entry>, manifest: Manifest, archive: seq<Entry>)
    requires IsArchive(codec, closure, manifest, archive) && WellFormed(closure)
    ensures forall p :: p in Extract(archive) <==> p == MANIFEST_NAME || HasPath(closure, p)
    ensures forall e :: e in archive ==> PathClean.Clean(e.path) == e.path
  {
    ArchiveMembers(codec, closure, manifest, archive);
    ManifestNameInside();
    ExtractKeys(archive);
    var last := ManifestEntry(codec, manifest);
    assert last in archive && last.path == MANIFEST_NAME;
    forall p | HasPath(closure, p) ensures p in Extract(archive) {
      var e :| e in closure && e.path == p;
      assert e in archive;
    }
  }

  lemma DeclaredFilesValid(codec: Codec, header: Header, closure: seq<Entry>, manifest: Manifest)
    requires Declares(codec, header, closure, manifest) && WellFormed(closure)
    ensures ValidFiles(manifest.files) <==> !HasPath(closure, MANIFEST_NAME)
    ensures forall p :: Listed(manifest.files, p) <==> HasPath(closure, p)
  {
  }

  /** `content` is a manifest of the closure without its file named pack.json, if it
      has one: it declares exactly the other paths, with their digests and sizes. */
  ghost predicate DescribesRest(codec: Codec, content: Bytes, closure: seq<Entry>) {
    && codec.decode(content).Some?
    && var manifest := codec.decode(content).value;
    && ValidHeader(manifest)
    && codec.listDigest(manifest.files) == manifest.contentDigest
    && ValidFiles(manifest.files)
    && (forall p :: Listed(manifest.files, p) <==> HasPath(closure, p) && p != MANIFEST_NAME)
    && (forall f, e :: f in manifest.files && e in closure && e.path == f.path ==> Records(codec, f, e))
  }

  predicate Records(codec: Codec, f: File, e: Entry) {
    f.sha256 == codec.hash(e.data) && f.size == |e.data|
  }

  /** The manifest's own text describes the rest exactly if there is no such file. */
  lemma OwnManifestDescribes(codec: Codec, header: Header, closure: seq<Entry>, manifest: Manifest)
    requires Declares(codec, header, closure, manifest) && WellFormed(closure) && ValidHeader(manifest)
    requires codec.decode(codec.encode(manifest)) == Some(manifest)
    ensures DescribesRest(codec, codec.encode(manifest), closure) <==> !HasPath(closure, MANIFEST_NAME)
  {
    DeclaredFilesValid(codec, header, closure, manifest);
    if !HasPath(closure, MANIFEST_NAME) {
      forall f, e | f in manifest.files && e in closure && e.path == f.path ensures Records(codec, f, e) {
        var i :| 0 <= i < |manifest.files| && manifest.files[i] == f;
        var j :| 0 <= j < |closure| && closure[j] == e;
        assert closure[i].path == closure[j].path;
      }
    }
  }

  /** What is on disk under a path other than the manifest's. */
  lemma ExtractedEntry(codec: Codec, closure: seq<Entry>, manifest: Manifest, archive: seq<Entry>, e: Entry)
    requires IsArchive(codec, closure, manifest, archive) && WellFormed(closure)
    requires e in closure && e.path != MANIFEST_NAME
    ensures e.path in Extract(archive) && Extract(archive)[e.path] == Node(true, e.data)
  {
    ArchiveMembers(codec, closure, manifest, archive);
    ExtractedPaths(codec, closure, manifest, archive);
    forall f | f in archive && f.path == e.path ensures f == e {
      var i :| 0 <= i < |closure| && closure[i] == e;
      var j :| 0 <= j < |closure| && closure[j] == f;
    }
    ExtractAt(archive, e);
  }

  /** The tree holds the closure and something under the manifest's name. */
  ghost predicate TreeOf(tree: Tree, closure: seq<Entry>) {
    && (forall p :: p in tree <==> p == MANIFEST_NAME || HasPath(closure, p))
    && (forall p :: p in tree ==> tree[p].regular)
    && (forall e :: e in closure && e.path != MANIFEST_NAME ==> tree[e.path].content == e.data)
  }

  lemma ExtractedTree(codec: Codec, closure: seq<Entry>, manifest: Manifest, archive: seq<Entry>)
    requires IsArchive(codec, closure, manifest, archive) && WellFormed(closure)
    ensures TreeOf(Extract(archive), closure)
  {
    ExtractedPaths(codec, closure, manifest, archive);
    ExtractedRegular(archive);
    forall e | e in closure && e.path != MANIFEST_NAME
      ensures e.path in Extract(archive) && Extract(archive)[e.path].content == e.data
    {
      ExtractedEntry(codec, closure, manifest, archive, e);
    }
  }

  lemma TreeMatches(codec: Codec, closure: seq<Entry>, tree: Tree, files: seq<File>)
    requires TreeOf(tree, closure) && ValidFiles(files) && Matches(codec, tree, files)
    ensures forall p :: Listed(files, p) <==> HasPath(closure, p) && p != MANIFEST_NAME
    ensures forall f, e :: f in files && e in closure && e.path == f.path ==> Records(codec, f, e)
  {
    forall p ensures Listed(files, p) <==> HasPath(closure, p) && p != MANIFEST_NAME {
      if Listed(files, p) {
        var f :| f in files && f.path == p;
        assert f.path in tree && ValidName(f.path);
      }
    }
    forall f, e | f in files && e in closure && e.path == f.path ensures Records(codec, f, e) {
      assert ValidName(f.path) && Intact(codec, tree[f.path], f);
    }
  }

  lemma MatchesTree(codec: Codec, closure: seq<Entry>, tree: Tree, files: seq<File>)
    requires TreeOf(tree, closure) && ValidFiles(files)
    requires forall p :: Listed(files, p) <==> HasPath(closure, p) && p != MANIFEST_NAME
    requires forall f, e :: f in files && e in closure && e.path == f.path ==> Records(codec, f, e)
    ensures Matches(codec, tree, files)
  {
    forall f | f in files ensures f.path in tree && Intact(codec, tree[f.path], f) {
      assert Listed(files, f.path);
      var e :| e in closure && e.path == f.path;
      assert Records(codec, f, e);
    }
  }

  /** What is extracted under the manifest's name is the manifest or the closure's file
      of that name; which of the two is left open by the sort. */
  lemma ManifestOrFile(codec: Codec, closure: seq<Entry>, manifest: Manifest, archive: seq<Entry>)
    requires IsArchive(codec, closure, manifest, archive) && WellFormed(closure)
    ensures MANIFEST_NAME in Extract(archive)
    ensures Extract(archive)[MANIFEST_NAME].content == codec.encode(manifest)
      || exists e :: e in closure && e.path == MANIFEST_NAME && Extract(archive)[MANIFEST_NAME].content == e.data
  {
    ExtractedPaths(codec, closure, manifest, archive);
    ArchiveMembers(codec, closure, manifest, archive);
    var e := ExtractSome(archive, MANIFEST_NAME);
  }

  /** Whichever of two entries named pack.json comes last, the extracted pack is accepted
      exactly when its text is a manifest of the rest of the closure. */
  lemma OwnPackAccepted(codec: Codec, header: Header, closure: seq<Entry>, manifest: Manifest, archive: seq<Entry>)
    requires Declares(codec, header, closure, manifest) && IsArchive(codec, closure, manifest, archive)
    requires WellFormed(closure)
    ensures MANIFEST_NAME in Extract(archive)
    ensures Accepts(codec, Extract(archive)) <==>
      DescribesRest(codec, Extract(archive)[MANIFEST_NAME].content, closure)
  {
    ManifestOrFile(codec, closure, manifest, archive);
    var content := Extract(archive)[MANIFEST_NAME].content;
    if codec.decode(content).Some? && ValidFiles(codec.decode(content).value.files) {
      var files := codec.decode(content).value.files;
      ExtractedTree(codec, closure, manifest, archive);
      if Matches(codec, Extract(archive), files) {
        TreeMatches(codec, closure, Extract(archive), files);
      }
      if DescribesRest(codec, content, closure) {
        MatchesTree(codec, closure, Extract(archive), files);
      }
    }
  }

  /** Everything Create does for a project. */
  ghost predicate Packs(codec: Codec, header: Header, project: Project, manifest: Manifest, archive: seq<Entry>) {
    exists paths, closure ::
      && ClosureIs(project, paths) && Lists(closure, paths)
      && Declares(codec, header, closure, manifest)
      && IsArchive(codec, closure, manifest, archive)
  }

  lemma ClosureWellFormed(project: Project, paths: Paths, closure: seq<Entry>)
    requires WellPlaced(project) && ClosureIs(project, paths) && Lists(closure, paths)
    ensures WellFormed(closure)
    ensures HasPath(closure, MANIFEST_NAME) <==> Names(project.memory, MANIFEST_NAME)
  {
    ClosurePaths(project, paths);
    forall i, j | 0 <= i < j < |closure| ensures closure[i].path != closure[j].path {
      ListingPathsDiffer(closure, paths, i, j);
    }
    forall e | e in closure ensures Inside(e.path) {
      assert MapsTo(paths, e.path, e);
    }
    if MANIFEST_NAME in paths {
      assert paths[MANIFEST_NAME] in closure;
    }
    if HasPath(closure, MANIFEST_NAME) {
      var e :| e in closure && e.path == MANIFEST_NAME;
      assert MapsTo(paths, e.path, e);
    }
  }

  /** Round trip: a packed project is accepted after extraction if and only if no
      memory reference of its team or agents cleans to "pack.json", or the file it
      names wins its place in the archive and is a manifest of all the other files. */
  lemma PackedProjectAccepted(codec: Codec, header: Header, project: Project, paths: Paths, closure: seq<Entry>,
                              manifest: Manifest, archive: seq<Entry>)
    requires WellPlaced(project) && ClosureIs(project, paths) && Lists(closure, paths)
    requires Declares(codec, header, closure, manifest) && IsArchive(codec, closure, manifest, archive)
    requires header.project != "" && header.team != "" && header.planDigest != ""
    requires codec.decode(codec.encode(manifest)) == Some(manifest)
    ensures Accepts(codec, Extract(archive)) <==>
      !Names(project.memory, MANIFEST_NAME) || MemoryFileIsManifest(codec, closure, archive)
  {
    ClosureWellFormed(project, paths, closure);
    OwnPackAccepted(codec, header, closure, manifest, archive);
    OwnManifestDescribes(codec, header, closure, manifest);
    ManifestOrFile(codec, closure, manifest, archive);
    if !Names(project.memory, MANIFEST_NAME) {
      assert Extract(archive)[MANIFEST_NAME].content == codec.encode(manifest);
    }
  }

  ghost predicate MemoryFileIsManifest(codec: Codec, closure: seq<Entry>, archive: seq<Entry>) {
    exists e :: e in closure && e.path == MANIFEST_NAME && MANIFEST_NAME in Extract(archive)
      && Extract(archive)[MANIFEST_NAME].content == e.data && DescribesRest(codec, e.data, closure)
  }

  /** The half a caller can check beforehand: a memory file named pack.json whose text is
      no manifest of the other files makes every archive of the project refused. */
  lemma MemoryFileRefused(codec: Codec, header: Header, project: Project, paths: Paths, closure: seq<Entry>,
                          manifest: Manifest, archive: seq<Entry>)
    requires WellPlaced(project) && ClosureIs(project, paths) && Lists(closure, paths)
    requires Declares(codec, header, closure, manifest) && IsArchive(codec, closure, manifest, archive)
    requires header.project != "" && header.team != "" && header.planDigest != ""
    requires codec.decode(codec.encode(manifest)) == Some(manifest)
    requires Names(project.memory, MANIFEST_NAME) && MANIFEST_NAME in project.files
    requires !DescribesRest(codec, project.files[MANIFEST_NAME].data, closure)
    ensures !Accepts(codec, Extract(archive))
  {
    PackedProjectAccepted(codec, header, project, paths, closure, manifest, archive);
    MemoryFileInClosure(project, paths, MANIFEST_NAME);
    forall e | e in closure && e.path == MANIFEST_NAME ensures e.data == project.files[MANIFEST_NAME].data {
      assert MapsTo(paths, e.path, e);
    }
  }

  // ---- The limits of extraction ---------------------------------------------

  lemma {:induction false} SizeOfConcat(a: seq<Entry>, b: seq<Entry>)
    ensures TotalSize(a + b) == TotalSize(a) + TotalSize(b)
    decreases |b|
  {
    if b == [] {
      assert a + b == a;
    } else {
      var c := a + b;
      assert c[..|c| - 1] == a + b[..|b| - 1] && c[|c| - 1] == b[|b| - 1];
      SizeOfConcat(a, b[..|b| - 1]);
    }
  }

  /** The bytes of an archive do not depend on the order of its entries. */
  lemma {:induction false} SizeOfPermutation(a: seq<Entry>, b: seq<Entry>)
    requires multiset(a) == multiset(b)
    ensures TotalSize(a) == TotalSize(b) && |a| == |b|
    decreases |a|
  {
    assert |a| == |multiset(a)| == |multiset(b)| == |b|;
    if a != [] {
      var init, last := a[..|a| - 1], a[|a| - 1];
      assert a == init + [last];
      assert last in multiset(b);
      var j :| 0 <= j < |b| && b[j] == last;
      var rest := b[..j] + b[j + 1..];
      assert b == b[..j] + ([last] + b[j + 1..]);
      assert multiset(rest) == multiset(b) - multiset{last};
      SizeOfPermutation(init, rest);
      SizeOfConcat(b[..j], b[j + 1..]);
      SizeOfConcat(b[..j], [last] + b[j + 1..]);
      SizeOfConcat([last], b[j + 1..]);
      assert TotalSize([last]) == |last.data|;
    }
  }

  /** The closure and a manifest of that many bytes can be extracted again. */
  ghost predicate WithinLimits(closure: seq<Entry>, manifestSize: nat) {
    && |closure| < MAX_ENTRIES
    && TotalSize(closure) + manifestSize <= MAX_BYTES
    && (forall e, f :: e in closure && f in closure ==> !(e.path + "/" <= f.path))
    && (forall e :: e in closure ==> !(MANIFEST_NAME + "/" <= e.path))
  }

  lemma NameHasNoSlash(p: string)
    ensures !(p + "/" <= MANIFEST_NAME)
  {
    if |p| < |MANIFEST_NAME| {
      assert (p + "/")[|p|] == '/' && MANIFEST_NAME[|p|] != '/';
    }
  }

  lemma OwnPathsNested(codec: Codec, closure: seq<Entry>, manifest: Manifest, archive: seq<Entry>)
    requires IsArchive(codec, closure, manifest, archive) && WellFormed(closure)
    ensures NoneNested(archive) <==>
      && (forall e, f :: e in closure && f in closure ==> !(e.path + "/" <= f.path))
      && (forall e :: e in closure ==> !(MANIFEST_NAME + "/" <= e.path))
  {
    ArchiveMembers(codec, closure, manifest, archive);
    ExtractedPaths(codec, closure, manifest, archive);
    var own := ManifestEntry(codec, manifest);
    assert own in archive && own.path == MANIFEST_NAME;
    if NoneNested(archive) {
      forall e, f | e in closure && f in closure ensures !(e.path + "/" <= f.path) {
        assert e in archive && f in archive;
      }
      forall e | e in closure ensures !(MANIFEST_NAME + "/" <= e.path) {
        assert e in archive;
      }
    } else {
      var e, f :| e in archive && f in archive && Nested(PathClean.Clean(e.path), PathClean.Clean(f.path));
      NameHasNoSlash(e.path);
      NameHasNoSlash(f.path);
    }
  }

  lemma OwnPathsStayInside(codec: Codec, closure: seq<Entry>, manifest: Manifest, archive: seq<Entry>)
    requires IsArchive(codec, closure, manifest, archive) && WellFormed(closure)
    ensures forall e :: e in archive ==> StaysInside(e.path)
  {
    ArchiveMembers(codec, closure, manifest, archive);
    ManifestNameInside();
    forall e | e in archive ensures StaysInside(e.path) {
      assert e in closure || e.path == MANIFEST_NAME;
      assert Inside(e.path);
    }
  }

  /** An archive as it was made can be extracted exactly within these limits. */
  lemma ExtractableExactly(codec: Codec, closure: seq<Entry>, manifest: Manifest, archive: seq<Entry>)
    requires IsArchive(codec, closure, manifest, archive) && WellFormed(closure)
    ensures Extractable(archive) <==> WithinLimits(closure, |codec.encode(manifest)|)
  {
    var own := ManifestEntry(codec, manifest);
    SizeOfPermutation(archive, closure + [own]);
    SizeOfConcat(closure, [own]);
    assert TotalSize([own]) == |own.data|;
    OwnPathsNested(codec, closure, manifest, archive);
    OwnPathsStayInside(codec, closure, manifest, archive);
  }

  /** The whole way: a packed project can be installed if and only if it has fewer than
      5000 files, they and the manifest have at most 64 MiB, no path is both a file and
      a directory, and no memory file takes the manifest's name, save one that is a
      manifest of the other files and wins. Creating a pack checks none of this. */
  lemma PackedProjectInstalls(codec: Codec, header: Header, project: Project, paths: Paths, closure: seq<Entry>,
                              manifest: Manifest, archive: seq<Entry>)
    requires WellPlaced(project) && ClosureIs(project, paths) && Lists(closure, paths)
    requires Declares(codec, header, closure, manifest) && IsArchive(codec, closure, manifest, archive)
    requires header.project != "" && header.team != "" && header.planDigest != ""
    requires codec.decode(codec.encode(manifest)) == Some(manifest)
    ensures Installs(codec, Written(archive)) <==>
      && WithinLimits(closure, |codec.encode(manifest)|)
      && (!Names(project.memory, MANIFEST_NAME) || MemoryFileIsManifest(codec, closure, archive))
  {
    ClosureWellFormed(project, paths, closure);
    WrittenFiles(archive);
    WrittenUnzippable(archive);
    ExtractableExactly(codec, closure, manifest, archive);
    PackedProjectAccepted(codec, header, project, paths, closure, manifest, archive);
  }

  lemma ArchiveDetermined(codec: Codec, header: Header, closure: seq<Entry>,
                          m1: Manifest, a1: seq<Entry>, m2: Manifest, a2: seq<Entry>)
    requires WellFormed(closure) && !HasPath(closure, MANIFEST_NAME)
    requires Declares(codec, header, closure, m1) && IsArchive(codec, closure, m1, a1)
    requires Declares(codec, header, closure, m2) && IsArchive(codec, closure, m2, a2)
    ensures m1 == m2 && a1 == a2
  {
    assert m1.files == m2.files;
    ArchiveOnePerPath(codec, closure, m1, a1);
    OneOrder(a1, a2);
  }

  /** Packing is deterministic: map iteration order shows neither in the manifest
      nor in the archive, unless a memory file shares the manifest's name. */
  lemma PackDetermined(codec: Codec, header: Header, project: Project,
                       m1: Manifest, a1: seq<Entry>, m2: Manifest, a2: seq<Entry>)
    requires WellPlaced(project) && !Names(project.memory, MANIFEST_NAME)
    requires Packs(codec, header, project, m1, a1) && Packs(codec, header, project, m2, a2)
    ensures m1 == m2 && a1 == a2
  {
    var p1, c1 :| ClosureIs(project, p1) && Lists(c1, p1)
               && Declares(codec, header, c1, m1) && IsArchive(codec, c1, m1, a1);
    var p2, c2 :| ClosureIs(project, p2) && Lists(c2, p2)
               && Declares(codec, header, c2, m2) && IsArchive(codec, c2, m2, a2);
    ClosureDetermined(project, p1, p2);
    ClosurePaths(project, p1);
    ListingDetermined(c1, c2, p1);
    ClosureWellFormed(project, p1, c1);
    ArchiveDetermined(codec, header, c1, m1, a1, m2, a2);
  }

  // ---- A project whose pack cannot be installed -----------------------------

  function Digit(n: nat): char {
    "0123456789"[n % 10]
  }

  /** Four digits of `i`. */
  function FourDigits(i: nat): string {
    [Digit(i / 10 / 10 / 10), Digit(i / 10 / 10), Digit(i / 10), Digit(i)]
  }

  lemma DigitInjective(m: nat, n: nat)
    requires Digit(m) == Digit(n) && m / 10 == n / 10
    ensures m == n
  {
    assert m == 10 * (m / 10) + m % 10 && n == 10 * (n / 10) + n % 10;
  }

  lemma FourDigitsInjective(i: nat, j: nat)
    requires i < 10000 && j < 10000 && FourDigits(i) == FourDigits(j)
    ensures i == j
  {
    var a, b := FourDigits(i), FourDigits(j);
    assert a[0] == b[0] && a[1] == b[1] && a[2] == b[2] && a[3] == b[3];
    assert i / 10 < 1000 && i / 10 / 10 < 100 && i / 10 / 10 / 10 < 10;
    assert j / 10 < 1000 && j / 10 / 10 < 100 && j / 10 / 10 / 10 < 10;
    DigitInjective(i / 10 / 10 / 10, j / 10 / 10 / 10);
    DigitInjective(i / 10 / 10, j / 10 / 10);
    DigitInjective(i / 10, j / 10);
    DigitInjective(i, j);
  }

  const MANY := 5000

  /** The walk of a team directory with its definition and 5000 empty files. */
  function BigTeam(definition: Bytes): Directory {
    Directory("teams/t", seq(MANY, i requires 0 <= i => Found(FourDigits(i), true, [], 0))
                         + [Found("team.yaml", true, definition, 0)])
  }

  function OneAgent(definition: Bytes): Directory {
    Directory("agents/a", [Found("AGENT.md", true, definition, 0)])
  }

  /** A project with that team and its one agent, whatever their definitions say. */
  function BigProject(yaml: Bytes, team: Bytes, agent: Bytes): Project {
    Project(Entry("agentworks.yaml", yaml, 0), [BigTeam(team), OneAgent(agent)], {}, map[], true, [], {})
  }

  /** Clean names joined by slashes are a clean path. */
  lemma ThreeNames(a: string, b: string, c: string)
    requires PathClean.AllPlain([a, b, c]) && a != ".." && b != ".." && c != ".."
    ensures PathClean.Clean(a + "/" + b + "/" + c) == a + "/" + b + "/" + c
  {
    var segments := [a, b, c];
    assert [] + segments == segments;
    PathClean.PushAllKeepsClean([], segments);
    assert segments[1..] == [b, c] && segments[1..][1..] == [c];
    assert PathClean.Join(segments[1..][1..]) == c;
    assert PathClean.Join(segments[1..]) == b + "/" + c;
    assert PathClean.Join(segments) == a + "/" + (b + "/" + c) == a + "/" + b + "/" + c;
    assert PathClean.Plain(a) && PathClean.Join(segments)[0] == a[0];
    PathClean.SplitJoin(segments);
  }

  function TeamFile(i: nat): string {
    if i < MANY then FourDigits(i) else "team.yaml"
  }

  lemma TeamFileDiffers(i: nat, j: nat)
    requires i < j <= MANY
    ensures TeamFile(i) != TeamFile(j)
  {
    if j < MANY && FourDigits(i) == FourDigits(j) {
      FourDigitsInjective(i, j);
    } else if j == MANY {
      assert |TeamFile(i)| == 4 && |TeamFile(j)| == 9;
    }
  }

  lemma BigTeamPath(team: Bytes, i: nat)
    requires i <= MANY
    ensures |BigTeam(team).found| == MANY + 1 && BigTeam(team).found[i].regular
    ensures PathOf(BigTeam(team), BigTeam(team).found[i]) == "teams/t/" + TeamFile(i)
  {
    var name := TeamFile(i);
    assert BigTeam(team).found[i].relative == name;
    assert "teams" + "/" + "t" == "teams/t";
    assert "teams/t" + "/" + name == "teams/t/" + name;
    assert forall k :: 0 <= k < 10 ==> "0123456789"[k] != '/' && "0123456789"[k] != '.';
    assert PathClean.AllPlain(["teams", "t", name]);
    ThreeNames("teams", "t", name);
  }

  lemma BigTeamAddable(team: Bytes)
    ensures Addable(BigTeam(team), {"agentworks.yaml"}) && DirsPlaced([BigTeam(team)])
  {
    var d := BigTeam(team);
    forall i | 0 <= i < |d.found|
      ensures d.found[i].regular && PathOf(d, d.found[i]) != "agentworks.yaml" && OwnDirectory(PathOf(d, d.found[i]))
    {
      BigTeamPath(team, i);
      assert KINDS[0] + "/" <= "teams/t/" + TeamFile(i);
      assert ("teams/t/" + TeamFile(i))[0] == 't';
    }
    forall i, j | 0 <= i < j < |d.found| ensures PathOf(d, d.found[i]) != PathOf(d, d.found[j]) {
      BigTeamPath(team, i);
      BigTeamPath(team, j);
      TeamFileDiffers(i, j);
      assert ("teams/t/" + TeamFile(i))[8..] == TeamFile(i) && ("teams/t/" + TeamFile(j))[8..] == TeamFile(j);
    }
  }

  lemma OneAgentPath(agent: Bytes)
    ensures PathOf(OneAgent(agent), OneAgent(agent).found[0]) == "agents/a/AGENT.md"
    ensures DirsPlaced([OneAgent(agent)])
  {
    assert PathClean.AllPlain(["agents", "a", "AGENT.md"]);
    ThreeNames("agents", "a", "AGENT.md");
    assert "agents" + "/" + "a" + "/" + "AGENT.md" == "agents/a/AGENT.md" == "agents/a" + "/" + "AGENT.md";
    assert KINDS[1] + "/" <= "agents/a/AGENT.md";
  }

  /** After the team's files the agent's path is free. */
  lemma OneAgentAddable(before: Paths, team: Bytes, now: Paths, agent: Bytes)
    requires before.Keys == {"agentworks.yaml"} && Added(before, BigTeam(team), now)
    ensures Addable(OneAgent(agent), now.Keys)
  {
    OneAgentPath(agent);
    forall p | p in now ensures p != "agents/a/AGENT.md" {
      assert MapsTo(now, p, now[p]);
      if Holds(BigTeam(team), now[p]) {
        var f :| f in BigTeam(team).found && now[p] == EntryOf(BigTeam(team), f);
        var i :| 0 <= i < |BigTeam(team).found| && BigTeam(team).found[i] == f;
        BigTeamPath(team, i);
        assert now[p].path[0] == 't';
      }
    }
  }

  /** A directory that can be added has a result, with all its files in it. */
  lemma {:induction false} AddedExists(before: Paths, d: Directory, n: nat) returns (after: Paths)
    requires n <= |d.found| && Addable(d, before.Keys)
    ensures Added(before, Prefix(d, n), after) && |after| == |before| + n
    decreases n
  {
    if n == 0 {
      after := before;
    } else {
      var now := AddedExists(before, d, n - 1);
      AddableParts(d, n - 1, before.Keys);
      AddableParts(d, n, before.Keys);
      OneMoreAddable(before, d, n - 1, now);
      OneMoreAdded(before, d, n - 1, now);
      after := now[PathOf(d, d.found[n - 1]) := EntryOf(d, d.found[n - 1])];
    }
  }

  lemma {:induction false} EntriesOf(m: Paths) returns (entries: seq<Entry>)
    requires Keyed(m)
    ensures |entries| == |m| && (forall p :: p in m ==> m[p] in entries)
    ensures forall e :: e in entries ==> MapsTo(m, e.path, e)
    decreases |m|
  {
    if m == map[] {
      return [];
    }
    var p :| p in m;
    var rest := m - {p};
    assert m.Keys == rest.Keys + {p};
    entries := EntriesOf(rest);
    forall q | q in m ensures m[q] in entries + [m[p]] {
      assert q != p ==> q in rest && rest[q] == m[q];
    }
    forall e | e in entries ensures MapsTo(m, e.path, e) {
      assert MapsTo(rest, e.path, e);
    }
    entries := entries + [m[p]];
  }

  lemma ListingExists(m: Paths) returns (listing: seq<Entry>)
    requires Keyed(m)
    ensures Lists(listing, m)
  {
    var entries := EntriesOf(m);
    listing := Ordering.Sort(PathLeq, entries);
    PathsRanked();
    Ordering.SortOrders(PathLeq, entries);
    Ordering.SortKeepsElements(PathLeq, entries);
    SameLength(entries, listing);
  }

  lemma BigProjectClosure(yaml: Bytes, team: Bytes, agent: Bytes) returns (paths: Paths, closure: seq<Entry>)
    ensures var project := BigProject(yaml, team, agent);
      WellPlaced(project) && ClosureIs(project, paths) && Lists(closure, paths)
    ensures |closure| == MANY + 3
  {
    var project, t, a := BigProject(yaml, team, agent), BigTeam(team), OneAgent(agent);
    var start := map["agentworks.yaml" := project.yaml];
    BigTeamAddable(team);
    BigTeamPath(team, 0);
    OneAgentPath(agent);
    assert start.Keys == {"agentworks.yaml"};
    var withTeam := AddedExists(start, t, |t.found|);
    assert Prefix(t, |t.found|) == t;
    OneAgentAddable(start, team, withTeam, agent);
    paths := AddedExists(withTeam, a, 1);
    assert Prefix(a, 1) == a;
    assert AllAdded(start, [], start);
    assert [t][..0] == [] && AllAdded(start, [t], withTeam);
    assert [t, a][..1] == [t] && AllAdded(start, [t, a], paths);
    BigProjectIs(project, start, paths);
    closure := ListingExists(paths);
  }

  lemma BigProjectIs(project: Project, start: Paths, paths: Paths)
    requires start == map[project.yaml.path := project.yaml] && AllAdded(start, project.components, paths)
    requires project.memory == {} && project.routes == [] && project.sources == {} && project.routesValid
    requires WellPlaced(project)
    ensures ClosureIs(project, paths) && Keyed(paths)
  {
    assert MemoryAdded(paths, project.files, {}, paths);
    assert AllAdded(paths, [], paths);
    assert BeforeSources(project, paths);
    assert SourcesAdded(paths, {}, paths);
    ClosurePaths(project, paths);
  }

  /** A project with 5000 short-named files in its team directory, beside the definitions
      of the team and its agent, has a closure, and no archive of it can be installed,
      whatever the definitions say and whatever the codec. */
  lemma BigProjectRefused(codec: Codec, yaml: Bytes, team: Bytes, agent: Bytes)
    returns (paths: Paths, closure: seq<Entry>)
    ensures var project := BigProject(yaml, team, agent);
      WellPlaced(project) && ClosureIs(project, paths) && Lists(closure, paths)
    ensures forall manifest, archive :: IsArchive(codec, closure, manifest, archive) ==>
      !Installs(codec, Written(archive))
  {
    paths, closure := BigProjectClosure(yaml, team, agent);
    ClosureWellFormed(BigProject(yaml, team, agent), paths, closure);
    forall manifest, archive | IsArchive(codec, closure, manifest, archive)
      ensures !Unzippable(Written(archive))
    {
      ExtractableExactly(codec, closure, manifest, archive);
      WrittenUnzippable(archive);
    }
  }
}
