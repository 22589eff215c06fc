/** internal/pack/pack.go and internal/targets/filecopy/extract.go: the manifest and
    the archive a pack is written as, its extraction, and the check of an extracted
    pack. Digests and the JSON form of a manifest are functions nothing is assumed
    about except where a lemma says so. */
module PackArchive {
  import opened Wrappers
  import opened PackClosure
  import Ordering
  import PathClean

  datatype File = File(path: string, sha256: string, size: int, mode: bv32)

  datatype Header = Header(project: string, team: string, planDigest: string, plan: string)

  datatype Manifest = Manifest(format: int, header: Header, contentDigest: string, files: seq<File>)

  /** The hash of a file's bytes, the digest of a file list, and JSON for manifests. */
  datatype Codec = Codec(
    hash: Bytes -> string,
    listDigest: seq<File> -> string,
    encode: Manifest -> Bytes,
    decode: Bytes -> Option<Manifest>)

  datatype Node = Node(regular: bool, content: Bytes)

  type Tree = map<string, Node>

  const FORMAT := 1
  const MANIFEST_NAME := "pack.json"
  const MAX_ENTRIES := 5000
  const MAX_BYTES := 0x400_0000

  // ---- Create ----

  /** A packed file is executable exactly when any execute bit was set. */
  function PackMode(mode: bv32): (packed: bv32)
    ensures packed & 0x49 != 0 <==> mode & 0x49 != 0
    ensures packed == 0x1ED || packed == 0x1A4
  {
    if mode & 0x49 != 0 then 0x1ED else 0x1A4
  }

  function FileOf(codec: Codec, e: Entry): File {
    File(e.path, codec.hash(e.data), |e.data|, PackMode(e.mode))
  }

  function ManifestEntry(codec: Codec, manifest: Manifest): Entry {
    Entry(MANIFEST_NAME, codec.encode(manifest), 0x1A4)
  }

  /** The manifest declares exactly the entries of the closure, in their order. */
  ghost predicate Declares(codec: Codec, header: Header, closure: seq<Entry>, manifest: Manifest) {
    && manifest.format == FORMAT && manifest.header == header
    && manifest.contentDigest == codec.listDigest(manifest.files)
    && |manifest.files| == |closure|
    && forall i :: 0 <= i < |closure| ==> manifest.files[i] == FileOf(codec, closure[i])
  }

  /** `archive` is the closure and its manifest in path order. */
  ghost predicate IsArchive(codec: Codec, closure: seq<Entry>, manifest: Manifest, archive: seq<Entry>) {
    && Ordering.Sorted(PathLeq, archive)
    && multiset(archive) == multiset(closure) + multiset{ManifestEntry(codec, manifest)}
  }

  method Create(codec: Codec, header: Header, closure: seq<Entry>)
    returns (manifest: Manifest, archive: seq<Entry>)
    ensures Declares(codec, header, closure, manifest)
    ensures IsArchive(codec, closure, manifest, archive)
    ensures forall i :: 0 <= i < |closure| ==>
      && manifest.files[i].path == closure[i].path && manifest.files[i].size == |closure[i].data|
      && manifest.files[i].sha256 == codec.hash(closure[i].data)
      && manifest.files[i].mode == if closure[i].mode & 0x49 != 0 then 0x1ED else 0x1A4
  {
    var files: seq<File> := [];
    for i := 0 to |closure|
      invariant |files| == i
      invariant forall k :: 0 <= k < i ==> files[k] == FileOf(codec, closure[k])
    {
      files := files + [FileOf(codec, closure[i])];
    }
    manifest := Manifest(FORMAT, header, codec.listDigest(files), files);
    var entries := closure + [ManifestEntry(codec, manifest)];
    archive := Ordering.Sort(PathLeq, entries);
    PathsRanked();
    Ordering.SortOrders(PathLeq, entries);
    Ordering.SortKeepsElements(PathLeq, entries);
  }

  // ---- Unzip ----

  function TotalSize(archive: seq<Entry>): nat {
    if archive == [] then 0 else TotalSize(archive[..|archive| - 1]) + |archive[|archive| - 1].data|
  }

  /** Joined to the destination the path does not leave it. */
  predicate Joins(path: string) {
    var name := PathClean.Clean(path);
    !PathClean.Rooted(path) && name != ".." && !("../" <= name)
  }

  /** Only a file below the destination can be written. */
  predicate StaysInside(path: string) {
    Joins(path) && PathClean.Clean(path) != "."
  }

  /** One path would have to be both a file and a directory. */
  predicate Nested(a: string, b: string) {
    a + "/" <= b || b + "/" <= a
  }

  ghost predicate NoneNested(archive: seq<Entry>) {
    forall e, f :: e in archive && f in archive ==>
      !Nested(PathClean.Clean(e.path), PathClean.Clean(f.path))
  }

  /** No more bytes than the cap, every path inside the destination, none both a
      file and a directory. */
  ghost predicate Fits(archive: seq<Entry>) {
    && TotalSize(archive) <= MAX_BYTES
    && (forall e :: e in archive ==> StaysInside(e.path))
    && NoneNested(archive)
  }

  /** The archives that extraction takes. */
  ghost predicate Extractable(archive: seq<Entry>) {
    |archive| <= MAX_ENTRIES && Fits(archive)
  }

  /** What extraction leaves on disk: of entries with the same path the last one. */
  function Extract(archive: seq<Entry>): Tree {
    if archive == [] then map[]
    else
      var last := archive[|archive| - 1];
      Extract(archive[..|archive| - 1])[PathClean.Clean(last.path) := Node(true, last.data)]
  }

  /** A member is written, made as a folder, or passed over as a symbolic link. */
  datatype Kind = Regular | Folder | Link

  datatype Member = Member(kind: Kind, entry: Entry)

  function Target(m: Member): string {
    PathClean.Clean(m.entry.path)
  }

  function FilesOf(members: seq<Member>): seq<Entry> {
    if members == [] then []
    else
      var last := members[|members| - 1];
      FilesOf(members[..|members| - 1]) + if last.kind.Regular? then [last.entry] else []
  }

  function FoldersOf(members: seq<Member>): set<string> {
    if members == [] then {}
    else
      var last := members[|members| - 1];
      FoldersOf(members[..|members| - 1]) + if last.kind.Folder? then {Target(last)} else {}
  }

  /** A file where the folder, or a folder above it, would have to be. */
  predicate Blocks(file: string, folder: string) {
    file == folder || file + "/" <= folder
  }

  ghost predicate FoldersFree(tree: Tree, folders: set<string>) {
    forall p, d :: p in tree && d in folders ==> !Blocks(p, d)
  }

  ghost predicate AllJoin(members: seq<Member>) {
    forall m :: m in members ==> Joins(m.entry.path)
  }

  /** Every member joins the destination, links too; the files fit and stand where
      no folder has to be. */
  ghost predicate Takeable(members: seq<Member>) {
    && AllJoin(members)
    && Fits(FilesOf(members))
    && FoldersFree(Extract(FilesOf(members)), FoldersOf(members))
  }

  /** The zip files that extraction takes. */
  ghost predicate Unzippable(members: seq<Member>) {
    |members| <= MAX_ENTRIES && Takeable(members)
  }

  method Unzip(members: seq<Member>) returns (r: Option<Tree>)
    ensures r.Some? <==> Unzippable(members)
    ensures r.Some? ==> r.value == Extract(FilesOf(members))
  {
    if |members| > MAX_ENTRIES {
      return None;
    }
    var tree: Tree := map[];
    var folders: set<string> := {};
    var total: nat := 0;
    for i := 0 to |members|
      invariant Reached(members[..i], tree, folders, total)
    {
      var m := members[i];
      assert members[..i + 1] == members[..i] + [m];
      OneMoreMember(members[..i], tree, folders, total, m);
      if !MemberFree(tree, folders, total, m) {
        PrefixTakeable(members, i + 1);
        return None;
      }
      if m.kind.Folder? {
        folders := folders + {Target(m)};
      } else if m.kind.Regular? {
        total := total + |m.entry.data|;
        tree := tree[Target(m) := Node(true, m.entry.data)];
      }
    }
    assert members[..|members|] == members;
    return Some(tree);
  }

  /** A file can be written under a path. */
  predicate FileFree(tree: Tree, folders: set<string>, path: string) {
    && StaysInside(path)
    && (forall p :: p in tree ==> !Nested(p, PathClean.Clean(path)))
    && (forall d :: d in folders ==> !Blocks(PathClean.Clean(path), d))
  }

  /** What is checked of one member. */
  predicate MemberFree(tree: Tree, folders: set<string>, total: nat, m: Member) {
    && Joins(m.entry.path)
    && match m.kind {
       case Link => true
       case Folder => !exists p :: p in tree && Blocks(p, Target(m))
       case Regular => total + |m.entry.data| <= MAX_BYTES && FileFree(tree, folders, m.entry.path)
       }
  }

  /** Where extraction stands after members it could take. */
  ghost predicate Reached(members: seq<Member>, tree: Tree, folders: set<string>, total: nat) {
    && Takeable(members)
    && tree == Extract(FilesOf(members)) && folders == FoldersOf(members) && total == TotalSize(FilesOf(members))
  }

  /** The checks of one member decide whether the members up to it can be taken. */
  lemma OneMoreMember(init: seq<Member>, tree: Tree, folders: set<string>, total: nat, m: Member)
    requires Reached(init, tree, folders, total)
    ensures MemberFree(tree, folders, total, m) <==> Takeable(init + [m])
    ensures MemberFree(tree, folders, total, m) ==>
      match m.kind
      case Link => Reached(init + [m], tree, folders, total)
      case Folder => Reached(init + [m], tree, folders + {Target(m)}, total)
      case Regular =>
        Reached(init + [m], tree[Target(m) := Node(true, m.entry.data)], folders, total + |m.entry.data|)
  {
    LastMember(init, m);
    match m.kind
    case Link =>
    case Folder => FolderStands(tree, folders, Target(m));
    case Regular =>
      FitsNext(FilesOf(init), m.entry);
      FileStands(tree, folders, Target(m), m.entry.data);
  }

  lemma LastMember(init: seq<Member>, m: Member)
    ensures FilesOf(init + [m]) == if m.kind.Regular? then FilesOf(init) + [m.entry] else FilesOf(init)
    ensures FoldersOf(init + [m]) == if m.kind.Folder? then FoldersOf(init) + {Target(m)} else FoldersOf(init)
    ensures AllJoin(init + [m]) <==> AllJoin(init) && Joins(m.entry.path)
  {
    var members := init + [m];
    assert members[..|members| - 1] == init && members[|members| - 1] == m;
    assert forall f :: f in members <==> f in init || f == m;
  }

  /** What extraction writes: exactly the files, neither the folders nor the links. */
  lemma {:induction false} ExtractedExactly(members: seq<Member>, p: string)
    ensures p in Extract(FilesOf(members)) <==> exists m :: m in members && m.kind.Regular? && Target(m) == p
  {
    if members != [] {
      var init, last := members[..|members| - 1], members[|members| - 1];
      assert members == init + [last];
      ExtractedExactly(init, p);
      LastMember(init, last);
      if last.kind.Regular? {
        LastExtracted(FilesOf(init), last.entry);
      }
    }
  }

  /** Of files with one path the last is what stays. */
  lemma LastExtracted(init: seq<Entry>, e: Entry)
    ensures Extract(init + [e]) == Extract(init)[PathClean.Clean(e.path) := Node(true, e.data)]
  {
    assert (init + [e])[..|init|] == init;
  }

  lemma FolderStands(tree: Tree, folders: set<string>, folder: string)
    requires FoldersFree(tree, folders)
    ensures FoldersFree(tree, folders + {folder}) <==> !exists p :: p in tree && Blocks(p, folder)
  {
  }

  lemma FileStands(tree: Tree, folders: set<string>, file: string, data: Bytes)
    requires FoldersFree(tree, folders)
    ensures FoldersFree(tree[file := Node(true, data)], folders) <==> forall d :: d in folders ==> !Blocks(file, d)
  {
  }

  lemma InitTakeable(init: seq<Member>, m: Member)
    ensures Takeable(init + [m]) ==> Takeable(init)
  {
    if Takeable(init + [m]) {
      LastMember(init, m);
      if m.kind.Regular? {
        var files := FilesOf(init) + [m.entry];
        assert files[..|FilesOf(init)|] == FilesOf(init);
        PrefixFits(files, |FilesOf(init)|);
        FitsNext(FilesOf(init), m.entry);
      }
    }
  }

  lemma {:induction false} PrefixTakeable(members: seq<Member>, n: nat)
    requires n <= |members|
    ensures Takeable(members) ==> Takeable(members[..n])
    decreases |members|
  {
    if n < |members| {
      var init := members[..|members| - 1];
      assert members == init + [members[|members| - 1]];
      InitTakeable(init, members[|members| - 1]);
      PrefixTakeable(init, n);
      assert init[..n] == members[..n];
    } else {
      assert members[..n] == members;
    }
  }

  /** An archive as Create writes it, which has files only. */
  function Written(archive: seq<Entry>): (members: seq<Member>)
    ensures |members| == |archive|
  {
    seq(|archive|, i requires 0 <= i < |archive| => Member(Regular, archive[i]))
  }

  lemma {:induction false} WrittenFiles(archive: seq<Entry>)
    ensures FilesOf(Written(archive)) == archive && FoldersOf(Written(archive)) == {}
    decreases |archive|
  {
    if archive != [] {
      var init, members := archive[..|archive| - 1], Written(archive);
      WrittenFiles(init);
      assert members[..|members| - 1] == Written(init);
      assert archive == init + [archive[|archive| - 1]];
    }
  }

  /** For written archives extraction comes down to the three checks of files. */
  lemma WrittenUnzippable(archive: seq<Entry>)
    ensures Unzippable(Written(archive)) <==> Extractable(archive)
  {
    WrittenFiles(archive);
    forall m | m in Written(archive) ensures m.kind.Regular? && m.entry in archive {
      var i :| 0 <= i < |archive| && Written(archive)[i] == m;
    }
  }

  /** The three checks of one entry decide whether the archive up to it fits. */
  lemma FitsNext(init: seq<Entry>, e: Entry)
    requires Fits(init)
    ensures Fits(init + [e]) <==>
      && StaysInside(e.path)
      && TotalSize(init) + |e.data| <= MAX_BYTES
      && !exists p :: p in Extract(init) && Nested(p, PathClean.Clean(e.path))
    ensures TotalSize(init + [e]) == TotalSize(init) + |e.data|
    ensures Extract(init + [e]) == Extract(init)[PathClean.Clean(e.path) := Node(true, e.data)]
  {
    var archive := init + [e];
    assert archive[..|archive| - 1] == init && archive[|archive| - 1] == e;
    assert e in archive;
    if p :| p in Extract(init) && Nested(p, PathClean.Clean(e.path)) {
      assert archive[..|init|] == init;
      NestedPairFound(archive, |init|);
    } else {
      NoNestedPairYet(init, e);
    }
  }

  lemma PrefixFits(archive: seq<Entry>, n: nat)
    requires n <= |archive|
    ensures Fits(archive) ==> Fits(archive[..n])
  {
    SizeGrows(archive, n);
  }

  lemma {:induction false} SizeGrows(archive: seq<Entry>, n: nat)
    requires n <= |archive|
    ensures TotalSize(archive[..n]) <= TotalSize(archive)
    decreases |archive|
  {
    if n < |archive| {
      var init := archive[..|archive| - 1];
      SizeGrows(init, n);
      assert init[..n] == archive[..n];
    } else {
      assert archive[..n] == archive;
    }
  }

  lemma {:induction false} ExtractKeys(archive: seq<Entry>)
    ensures forall p :: p in Extract(archive) <==> exists e :: e in archive && PathClean.Clean(e.path) == p
  {
    if archive != [] {
      var init, last := archive[..|archive| - 1], archive[|archive| - 1];
      assert archive == init + [last];
      ExtractKeys(init);
      forall p ensures p in Extract(archive) <==> exists e :: e in archive && PathClean.Clean(e.path) == p {
        if p in Extract(init) {
          var e :| e in init && PathClean.Clean(e.path) == p;
          assert e in archive;
        }
        if PathClean.Clean(last.path) == p {
          assert last in archive;
        }
      }
    }
  }

  lemma NestedPairFound(archive: seq<Entry>, i: nat)
    requires i < |archive|
    requires exists p :: p in Extract(archive[..i]) && Nested(p, PathClean.Clean(archive[i].path))
    ensures !NoneNested(archive)
  {
    var p :| p in Extract(archive[..i]) && Nested(p, PathClean.Clean(archive[i].path));
    ExtractKeys(archive[..i]);
    var e :| e in archive[..i] && PathClean.Clean(e.path) == p;
    assert e in archive && archive[i] in archive;
  }

  lemma NoNestedPairYet(init: seq<Entry>, last: Entry)
    requires NoneNested(init)
    requires !exists p :: p in Extract(init) && Nested(p, PathClean.Clean(last.path))
    ensures NoneNested(init + [last])
  {
    ExtractKeys(init);
    var target := PathClean.Clean(last.path);
    assert |target + "/"| > |target|;
    forall e, f | e in init + [last] && f in init + [last]
      ensures !Nested(PathClean.Clean(e.path), PathClean.Clean(f.path))
    {
      if e in init {
        assert PathClean.Clean(e.path) in Extract(init);
      }
      if f in init {
        assert PathClean.Clean(f.path) in Extract(init);
      }
    }
  }

  // ---- Where members land ----

  /** The place below the destination that a member's path leads to, if it stays inside. */
  function PlaceIn(path: string): Option<seq<string>> {
    PathClean.Leads(false, [], PathClean.Split(path))
  }

  /** The check of a member's path accepts exactly the relative paths that lead from the
      destination to it or below it, and a file can be written exactly below it. */
  lemma JoinsExactly(path: string)
    ensures Joins(path) <==> !PathClean.Rooted(path) && PlaceIn(path).Some?
    ensures StaysInside(path) <==> Joins(path) && PlaceIn(path) != Some([])
    ensures Joins(path) ==> PlaceIn(path) == Some(PathClean.CleanSegments(path))
  {
    if !PathClean.Rooted(path) {
      PathClean.ParentSegmentShows(path);
      PathClean.StaysInsideExactly(path, []);
      PathClean.CleanIsDot(path);
      assert [] + PathClean.CleanSegments(path) == PathClean.CleanSegments(path);
    }
  }

  /** Two files are in each other's way exactly when one would stand above the other, and
      a file blocks a folder exactly when it would stand at it or above it. */
  lemma InTheWayExactly(a: string, b: string, folder: string)
    requires StaysInside(a) && StaysInside(b) && Joins(folder)
    ensures PlaceIn(a).Some? && PlaceIn(b).Some? && PlaceIn(folder).Some?
    ensures Nested(PathClean.Clean(a), PathClean.Clean(b)) <==>
      PlaceIn(a).value < PlaceIn(b).value || PlaceIn(b).value < PlaceIn(a).value
    ensures Blocks(PathClean.Clean(a), PathClean.Clean(folder)) <==> PlaceIn(a).value <= PlaceIn(folder).value
  {
    JoinsExactly(a);
    JoinsExactly(b);
    JoinsExactly(folder);
    AboveExactly(a, b);
    AboveExactly(b, a);
    PathClean.TextPrefixIsSegmentPrefix(folder, a);
  }

  lemma AboveExactly(a: string, b: string)
    requires StaysInside(a) && StaysInside(b)
    ensures PathClean.Clean(a) + "/" <= PathClean.Clean(b) <==> PathClean.CleanSegments(a) < PathClean.CleanSegments(b)
  {
    PathClean.CleanSegmentsPlain(a);
    PathClean.CleanSegmentsPlain(b);
    PathClean.CleanIsDot(a);
    PathClean.CleanIsDot(b);
    PathClean.JoinPrefix(PathClean.CleanSegments(a), PathClean.CleanSegments(b));
  }

  // ---- Verify ----

  predicate ValidName(path: string) {
    path != MANIFEST_NAME && path != "" && !("/" <= path) && !("../" <= path)
  }

  predicate ValidFiles(files: seq<File>) {
    && (forall i :: 0 <= i < |files| ==> ValidName(files[i].path))
    && (forall i, j :: 0 <= i < j < |files| ==> files[i].path != files[j].path)
  }

  predicate ValidHeader(manifest: Manifest) {
    && manifest.format == FORMAT
    && manifest.header.project != "" && manifest.header.team != "" && manifest.header.planDigest != ""
  }

  /** The bytes on disk are those the record was made from, up to a hash collision. */
  predicate Intact(codec: Codec, node: Node, f: File) {
    codec.hash(node.content) == f.sha256 && |node.content| == f.size
  }

  ghost predicate Listed(files: seq<File>, path: string) {
    exists f :: f in files && f.path == path
  }

  /** The tree holds exactly the declared files and the manifest, all of them regular,
      each declared file with its digest and size. */
  ghost predicate Matches(codec: Codec, tree: Tree, files: seq<File>) {
    && (forall p :: p in tree ==> tree[p].regular)
    && (forall p :: p in tree && p != MANIFEST_NAME ==> Listed(files, p))
    && (forall f :: f in files ==> f.path in tree && Intact(codec, tree[f.path], f))
  }

  /** An extracted pack that may be installed. */
  ghost predicate Accepts(codec: Codec, tree: Tree) {
    && MANIFEST_NAME in tree
    && codec.decode(tree[MANIFEST_NAME].content).Some?
    && var manifest := codec.decode(tree[MANIFEST_NAME].content).value;
    && ValidHeader(manifest)
    && codec.listDigest(manifest.files) == manifest.contentDigest
    && ValidFiles(manifest.files)
    && Matches(codec, tree, manifest.files)
  }

  datatype Failure =
    | NoManifest
    | BadManifest
    | BadDigest
    | InvalidEntry(path: string)
    | NotRegular(path: string)
    | Unlisted(path: string)
    | NotIntact(path: string)
    | Missing

  /** Each refusal names something that is wrong with the tree. */
  ghost predicate Explains(codec: Codec, tree: Tree, files: seq<File>, failure: Failure) {
    match failure
    case NoManifest => MANIFEST_NAME !in tree
    case BadManifest | BadDigest => true
    case InvalidEntry(p) =>
      && Listed(files, p)
      && (ValidName(p) ==> exists i, j :: 0 <= i < j < |files| && files[i].path == files[j].path == p)
    case NotRegular(p) => p in tree && !tree[p].regular
    case Unlisted(p) => p in tree && p != MANIFEST_NAME && !Listed(files, p)
    case NotIntact(p) => exists f :: f in files && f.path == p && p in tree && !Intact(codec, tree[p], f)
    case Missing => exists f :: f in files && f.path !in tree
  }

  /** The files found by path, as the loop over a manifest builds them. */
  ghost predicate IsIndex(files: seq<File>, expected: map<string, File>) {
    && (forall f :: f in files ==> f.path in expected && expected[f.path] == f)
    && (forall p :: p in expected ==> expected[p] in files && expected[p].path == p)
  }

  method Expected(files: seq<File>) returns (r: Result<map<string, File>, string>)
    ensures r.Ok? <==> ValidFiles(files)
    ensures r.Ok? ==> IsIndex(files, r.value) && |r.value| == |files|
    ensures r.Err? ==> Listed(files, r.error)
    ensures r.Err? && ValidName(r.error) ==>
      exists i, j :: 0 <= i < j < |files| && files[i].path == files[j].path == r.error
  {
    var expected: map<string, File> := map[];
    for i := 0 to |files|
      invariant ValidFiles(files[..i]) && IsIndex(files[..i], expected) && |expected| == i
    {
      var f := files[i];
      assert files[..i + 1] == files[..i] + [f];
      NextFile(files[..i], f, expected);
      FilesPrefixValid(files, i + 1);
      if !ValidName(f.path) {
        return Err(f.path);
      }
      if f.path in expected {
        DeclaredTwice(files, i, expected);
        return Err(f.path);
      }
      expected := expected[f.path := f];
    }
    assert files[..|files|] == files;
    return Ok(expected);
  }

  lemma DeclaredTwice(files: seq<File>, j: nat, expected: map<string, File>)
    requires j < |files| && IsIndex(files[..j], expected) && files[j].path in expected
    ensures exists i, k :: 0 <= i < k < |files| && files[i].path == files[k].path == files[j].path
  {
  }

  lemma FilesPrefixValid(files: seq<File>, n: nat)
    requires n <= |files|
    ensures ValidFiles(files) ==> ValidFiles(files[..n])
  {
  }

  lemma NextFile(files: seq<File>, f: File, expected: map<string, File>)
    requires ValidFiles(files) && IsIndex(files, expected)
    ensures ValidFiles(files + [f]) <==> ValidName(f.path) && f.path !in expected
    ensures f.path !in expected ==> IsIndex(files + [f], expected[f.path := f])
  {
    var more := files + [f];
    assert more[|files|] == f;
    if f.path in expected {
      var k :| 0 <= k < |files| && files[k] == expected[f.path];
      assert more[k].path == more[|files|].path;
    } else {
      forall k | 0 <= k < |files| ensures more[k] == files[k] && files[k].path != f.path {
        assert files[k] in files;
      }
    }
  }

  /** `walk` visits every file of the tree once. */
  ghost predicate Visits(walk: seq<string>, tree: Tree) {
    && (forall i, j :: 0 <= i < j < |walk| ==> walk[i] != walk[j])
    && (forall p :: p in walk <==> p in tree)
  }

  /** What the walk checks of one file. */
  predicate Passes(codec: Codec, tree: Tree, expected: map<string, File>, p: string)
    requires p in tree
  {
    && tree[p].regular
    && (p != MANIFEST_NAME ==> p in expected && Intact(codec, tree[p], expected[p]))
  }

  method Walk(codec: Codec, tree: Tree, walk: seq<string>, expected: map<string, File>)
    returns (r: Result<set<string>, Failure>)
    requires Visits(walk, tree)
    ensures r.Ok? <==> forall p :: p in tree ==> Passes(codec, tree, expected, p)
    ensures r.Ok? ==> r.value == tree.Keys - {MANIFEST_NAME}
    ensures r.Err? ==>
      match r.error
      case NotRegular(p) => p in tree && !tree[p].regular
      case Unlisted(p) => p in tree && p != MANIFEST_NAME && p !in expected
      case NotIntact(p) => p in tree && p in expected && !Intact(codec, tree[p], expected[p])
      case _ => false
  {
    var seen: set<string> := {};
    for i := 0 to |walk|
      invariant forall k :: 0 <= k < i ==> walk[k] in tree && Passes(codec, tree, expected, walk[k])
      invariant forall p :: p in seen <==> p in walk[..i] && p != MANIFEST_NAME
    {
      var name := walk[i];
      assert name in walk;
      if !tree[name].regular {
        return Err(NotRegular(name));
      }
      if name != MANIFEST_NAME {
        if name !in expected {
          return Err(Unlisted(name));
        }
        if !Intact(codec, tree[name], expected[name]) {
          return Err(NotIntact(name));
        }
        seen := seen + {name};
      }
    }
    assert walk[..|walk|] == walk;
    return Ok(seen);
  }

  /** The counting argument: when every file seen is expected, as many seen as
      expected means that each expected file was seen. */
  lemma CountShowsMissing(seen: set<string>, expected: map<string, File>)
    requires seen <= expected.Keys
    ensures |seen| == |expected| <==> seen == expected.Keys
  {
    var rest := expected.Keys - seen;
    assert expected.Keys == seen + rest;
    assert |expected.Keys| == |seen| + |rest|;
  }

  lemma MatchesByCount(codec: Codec, tree: Tree, files: seq<File>, expected: map<string, File>)
    requires ValidFiles(files) && IsIndex(files, expected)
    ensures Matches(codec, tree, files) <==>
      && (forall p :: p in tree ==> Passes(codec, tree, expected, p))
      && tree.Keys - {MANIFEST_NAME} == expected.Keys
  {
  }

  lemma NotSeenIsMissing(tree: Tree, files: seq<File>, expected: map<string, File>)
    requires IsIndex(files, expected) && ValidFiles(files)
    requires tree.Keys - {MANIFEST_NAME} <= expected.Keys && tree.Keys - {MANIFEST_NAME} != expected.Keys
    ensures exists f :: f in files && f.path !in tree
  {
  }

  method Verify(codec: Codec, tree: Tree, walk: seq<string>) returns (r: Result<Manifest, Failure>)
    requires Visits(walk, tree)
    ensures r.Ok? <==> Accepts(codec, tree)
    ensures r.Ok? ==> codec.decode(tree[MANIFEST_NAME].content) == Some(r.value)
    ensures r.Ok? ==>
      && r.value.format == 1 && r.value.header.project != "" && r.value.header.team != ""
      && r.value.header.planDigest != "" && r.value.contentDigest == codec.listDigest(r.value.files)
    ensures r.Ok? ==> forall f :: f in r.value.files ==>
      f.path != "" && f.path != "pack.json" && !("/" <= f.path) && !("../" <= f.path)
    ensures r.Err? ==>
      var files := if MANIFEST_NAME in tree && codec.decode(tree[MANIFEST_NAME].content).Some?
                   then codec.decode(tree[MANIFEST_NAME].content).value.files else [];
      Explains(codec, tree, files, r.error)
  {
    if MANIFEST_NAME !in tree {
      return Err(NoManifest);
    }
    var decoded := codec.decode(tree[MANIFEST_NAME].content);
    if decoded.None? || !ValidHeader(decoded.value) {
      return Err(BadManifest);
    }
    var manifest := decoded.value;
    if codec.listDigest(manifest.files) != manifest.contentDigest {
      return Err(BadDigest);
    }
    var index := Expected(manifest.files);
    if index.Err? {
      return Err(InvalidEntry(index.error));
    }
    var expected := index.value;
    MatchesByCount(codec, tree, manifest.files, expected);
    var walked := Walk(codec, tree, walk, expected);
    if walked.Err? {
      return Err(walked.error);
    }
    CountShowsMissing(walked.value, expected);
    if |walked.value| != |expected| {
      NotSeenIsMissing(tree, manifest.files, expected);
      return Err(Missing);
    }
    return Ok(manifest);
  }

  /** Different contents have different hashes, as far as these packs go. */
  ghost predicate HashesDiffer(codec: Codec, a: Tree, b: Tree) {
    forall p :: p in a && p in b && codec.hash(a[p].content) == codec.hash(b[p].content) ==>
      a[p].content == b[p].content
  }

  function ManifestOf(codec: Codec, tree: Tree): Manifest
    requires MANIFEST_NAME in tree && codec.decode(tree[MANIFEST_NAME].content).Some?
  {
    codec.decode(tree[MANIFEST_NAME].content).value
  }

  /** Tampering shows: accepted packs that declare the same content digest hold the same
      files besides the manifest, as far as hashes and digests tell contents and lists
      apart. */
  lemma AcceptedPacksAgree(codec: Codec, a: Tree, b: Tree)
    requires Accepts(codec, a) && Accepts(codec, b) && HashesDiffer(codec, a, b)
    requires ManifestOf(codec, a).contentDigest == ManifestOf(codec, b).contentDigest
    requires codec.listDigest(ManifestOf(codec, a).files) == codec.listDigest(ManifestOf(codec, b).files) ==>
      ManifestOf(codec, a).files == ManifestOf(codec, b).files
    ensures a.Keys == b.Keys && forall p :: p in a && p != MANIFEST_NAME ==> a[p] == b[p]
  {
    var files := ManifestOf(codec, a).files;
    forall p ensures p in a <==> p in b {
    }
    forall p | p in a && p != MANIFEST_NAME ensures a[p] == b[p] {
      var f :| f in files && f.path == p;
      assert Intact(codec, a[p], f) && Intact(codec, b[p], f);
    }
  }

  /** What Install takes into an absent destination. */
  ghost predicate Installs(codec: Codec, members: seq<Member>) {
    Unzippable(members) && Accepts(codec, Extract(FilesOf(members)))
  }

  /** Install: into an absent destination, extract, then verify. */
  method Install(codec: Codec, members: seq<Member>, destinationExists: bool) returns (r: Option<Manifest>)
    ensures r.Some? <==> !destinationExists && Installs(codec, members)
    ensures r.Some? ==> codec.decode(Extract(FilesOf(members))[MANIFEST_NAME].content) == r
  {
    if destinationExists {
      return None;
    }
    var tree := Unzip(members);
    if tree.None? {
      return None;
    }
    var walk := WalkOrder(tree.value);
    var verified := Verify(codec, tree.value, walk);
    return if verified.Ok? then Some(verified.value) else None;
  }

  /** Some order in which the files of a tree are visited. */
  method WalkOrder(tree: Tree) returns (walk: seq<string>)
    ensures Visits(walk, tree)
  {
    walk := [];
    var todo := tree.Keys;
    while todo != {}
      invariant todo <= tree.Keys
      invariant forall i, j :: 0 <= i < j < |walk| ==> walk[i] != walk[j]
      invariant forall p :: p in walk <==> p in tree.Keys - todo
      decreases todo
    {
      var p :| p in todo;
      assert p !in walk;
      walk := walk + [p];
      todo := todo - {p};
    }
  }
}
