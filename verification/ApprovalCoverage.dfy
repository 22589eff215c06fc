/** When a stored run grant covers a permission request. */
module ApprovalCoverage {
  import opened Wrappers
  import opened Strings
  import opened RunModel
  import opened PathClean

  datatype PermissionRequest = PermissionRequest(kind: string, scope: Scope, summary: string)

  const FILESYSTEM := "filesystem.write"
  const COMMAND := "command.execute"

  /** strings.ReplaceAll(s, "\\", "/"). */
  function Slashes(s: string): (t: string)
    ensures |t| == |s| && forall i :: 0 <= i < |s| ==> t[i] == if s[i] == '\\' then '/' else s[i]
  {
    if s == "" then "" else [if s[0] == '\\' then '/' else s[0]] + Slashes(s[1..])
  }

  /** decodeScope into a directory: no other field may be present, and an absent one
      reads as empty. */
  function DecodeDirectory(scope: Scope): Option<string> {
    if scope.InvalidScope? || scope.executable.Some? || scope.subcommand.Some? || scope.unknown then None
    else if scope.directory.Some? then scope.directory
    else Some("")
  }

  datatype Command = Command(executable: string, subcommand: seq<string>)

  function DecodeCommand(scope: Scope): Option<Command> {
    if scope.InvalidScope? || scope.directory.Some? || scope.unknown then None
    else Some(Command(
      if scope.executable.Some? then scope.executable.value else "",
      if scope.subcommand.Some? then scope.subcommand.value else []))
  }

  /** The directory, with forward slashes, names a place inside the workspace. */
  predicate ValidDirectory(directory: string) {
    var normalized := Slashes(directory);
    var clean := Clean(normalized);
    && directory != "" && !("/" <= normalized)
    && !(|normalized| >= 3 && normalized[1] == ':' && normalized[2] == '/')
    && clean != ".." && !("../" <= clean)
  }

  predicate ValidCommand(command: Command) {
    && TrimSpace(command.executable) != ""
    && '/' !in command.executable && '\\' !in command.executable && ':' !in command.executable
    && command.subcommand != []
    && forall i :: 0 <= i < |command.subcommand| ==> TrimSpace(command.subcommand[i]) != ""
  }

  /** Request.Validate: it looks at the kind without its surrounding blanks. */
  predicate Validate(request: PermissionRequest) {
    var kind := TrimSpace(request.kind);
    && kind != "" && request.scope.Scope?
    && if kind == FILESYSTEM then
         DecodeDirectory(request.scope).Some? && ValidDirectory(DecodeDirectory(request.scope).value)
       else if kind == COMMAND then
         DecodeCommand(request.scope).Some? && ValidCommand(DecodeCommand(request.scope).value)
       else false
  }

  /** Request.CoveredBy, on cleaned texts: it compares the kind with its blanks. */
  predicate CoveredBy(request: PermissionRequest, grant: Approval) {
    && grant.state == ApprovalApproved && grant.kind == request.kind
    && if request.kind == FILESYSTEM then
         var wanted, allowed := DecodeDirectory(request.scope), DecodeDirectory(grant.scope);
         wanted.Some? && allowed.Some?
         && var w, a := Clean(Slashes(wanted.value)), Clean(Slashes(allowed.value));
            w == a || a == "." || a + "/" <= w
       else if request.kind == COMMAND then
         var wanted, allowed := DecodeCommand(request.scope), DecodeCommand(grant.scope);
         wanted.Some? && allowed.Some?
         && wanted.value.executable == allowed.value.executable
         && |wanted.value.subcommand| >= |allowed.value.subcommand|
         && forall i :: 0 <= i < |allowed.value.subcommand| ==>
           wanted.value.subcommand[i] == allowed.value.subcommand[i]
       else false
  }

  /** What a scope permits, read as data: the place below the workspace that its
      directory leads to, or the words of a command line. */
  datatype Reach = Below(place: seq<string>) | Runs(words: seq<string>)

  /** The place a directory, as it is written, leads to from `base`; none if that is
      outside. */
  function PlaceOf(base: seq<string>, directory: string): Option<seq<string>> {
    Leads(false, base, Split(Slashes(directory)))
  }

  function ReachOf(kind: string, scope: Scope): Option<Reach> {
    if kind == FILESYSTEM && DecodeDirectory(scope).Some? then
      var place := PlaceOf([], DecodeDirectory(scope).value);
      if place.Some? then Some(Below(place.value)) else None
    else if kind == COMMAND && DecodeCommand(scope).Some? then
      Some(Runs([DecodeCommand(scope).value.executable] + DecodeCommand(scope).value.subcommand))
    else None
  }

  predicate Extends(wanted: Reach, allowed: Reach) {
    match allowed
    case Below(place) => wanted.Below? && place <= wanted.place
    case Runs(words) => wanted.Runs? && words <= wanted.words
  }

  predicate WindowsAbsolute(path: string) {
    |path| >= 3 && path[1] == ':' && path[2] == '/'
  }

  /** A relative directory is accepted exactly when it leads, from every base, to that
      base or to a place below it. */
  lemma ValidDirectoryStaysBelow(directory: string)
    ensures ValidDirectory(directory) <==>
      && directory != "" && !Rooted(Slashes(directory)) && !WindowsAbsolute(Slashes(directory))
      && forall base :: PlaceOf(base, directory).Some? && base <= PlaceOf(base, directory).value
    ensures ValidDirectory(directory) ==> forall base ::
      PlaceOf(base, directory) == Some(base + PlaceOf([], directory).value)
  {
    var path := Slashes(directory);
    if !Rooted(path) {
      ParentSegmentShows(path);
      StaysInsideExactly(path, []);
      assert [] + CleanSegments(path) == CleanSegments(path);
      if ".." !in CleanSegments(path) {
        forall base ensures PlaceOf(base, directory) == Some(base + CleanSegments(path)) {
          StaysInsideExactly(path, base);
        }
      } else {
        assert PlaceOf([], directory).None?;
      }
    }
  }

  predicate Blank(word: string) {
    forall i :: 0 <= i < |word| ==> IsSpace(word[i])
  }

  /** A command is accepted exactly if it is a bare executable name, without a path or a
      drive, and at least one subcommand word, none of its words blank: no grant covers
      all that an executable can do. */
  lemma ValidCommandIsBounded(command: Command)
    ensures ValidCommand(command) <==>
      && !Blank(command.executable) && Split(Slashes(command.executable)) == [command.executable]
      && ':' !in command.executable && command.subcommand != []
      && forall i :: 0 <= i < |command.subcommand| ==> !Blank(command.subcommand[i])
  {
    TrimSpaceLeavesNothing(command.executable);
    forall i | 0 <= i < |command.subcommand| ensures TrimSpace(command.subcommand[i]) != "" <==>
      !Blank(command.subcommand[i])
    {
      TrimSpaceLeavesNothing(command.subcommand[i]);
    }
    SplitHasNoSlash(Slashes(command.executable));
    JoinSplit(Slashes(command.executable));
    BareName(command.executable);
  }

  lemma BareName(name: string)
    ensures Split(Slashes(name)) == [name] <==> '/' !in name && '\\' !in name
  {
    var path := Slashes(name);
    SplitHasNoSlash(path);
    if '/' !in name && '\\' !in name {
      assert path == name;
      SplitAtSlash(name, "");
    }
    if Split(path) == [name] {
      JoinSplit(path);
      assert path == name && '/' !in [name][0];
    }
  }

  /** A scope is refused if it has a field that is not one of its kind's. */
  lemma ForeignFieldRefused(request: PermissionRequest)
    requires Validate(request)
    ensures request.scope.Scope? && !request.scope.unknown
    ensures TrimSpace(request.kind) == "filesystem.write" || TrimSpace(request.kind) == "command.execute"
    ensures TrimSpace(request.kind) == "filesystem.write" ==>
      request.scope.executable == None && request.scope.subcommand == None && request.scope.directory.Some?
    ensures TrimSpace(request.kind) == "command.execute" ==>
      request.scope.directory == None && request.scope.executable.Some? && request.scope.subcommand.Some?
  {
  }

  /** The scope is one the broker accepts for its kind. */
  predicate ValidScope(kind: string, scope: Scope) {
    Validate(PermissionRequest(kind, scope, ""))
  }

  /** Between valid scopes of one kind, the text tests decide exactly whether the
      request's reach extends the grant's: its directory leads to the place the grant's
      leads to or below it, or its command line begins with the grant's words. */
  lemma CoverageIsPrefix(request: PermissionRequest, grant: Approval)
    requires TrimSpace(request.kind) == request.kind && Validate(request) && ValidScope(request.kind, grant.scope)
    ensures ReachOf(request.kind, request.scope).Some? && ReachOf(request.kind, grant.scope).Some?
    ensures CoveredBy(request, grant) <==>
      && grant.state == ApprovalApproved && grant.kind == request.kind
      && Extends(ReachOf(request.kind, request.scope).value, ReachOf(request.kind, grant.scope).value)
  {
    if request.kind == FILESYSTEM {
      DirectoryCoverage(DecodeDirectory(request.scope).value, DecodeDirectory(grant.scope).value);
    } else {
      var wanted, allowed := DecodeCommand(request.scope).value, DecodeCommand(grant.scope).value;
      var w, a := [wanted.executable] + wanted.subcommand, [allowed.executable] + allowed.subcommand;
      assert w[0] == wanted.executable && a[0] == allowed.executable;
      assert w[1..] == wanted.subcommand && a[1..] == allowed.subcommand;
      assert a <= w ==> a[1..] <= w[1..];
    }
  }

  /** On accepted directories the three text tests compare the places they lead to. */
  lemma DirectoryCoverage(wanted: string, allowed: string)
    requires ValidDirectory(wanted) && ValidDirectory(allowed)
    ensures PlaceOf([], wanted).Some? && PlaceOf([], allowed).Some?
    ensures var w, a := Clean(Slashes(wanted)), Clean(Slashes(allowed));
      w == a || a == "." || a + "/" <= w <==> PlaceOf([], allowed).value <= PlaceOf([], wanted).value
  {
    ValidDirectoryStaysBelow(wanted);
    ValidDirectoryStaysBelow(allowed);
    var w, a := Slashes(wanted), Slashes(allowed);
    StaysInsideExactly(w, []);
    StaysInsideExactly(a, []);
    assert [] + CleanSegments(w) == CleanSegments(w) && [] + CleanSegments(a) == CleanSegments(a);
    TextPrefixIsSegmentPrefix(w, a);
  }

  /** A directory the broker accepts never climbs out of the workspace, so neither
      does anything a grant of it covers: from every base it leads below that base. */
  lemma ValidReachStaysInside(kind: string, scope: Scope, base: seq<string>)
    requires ValidScope(kind, scope) && kind == FILESYSTEM
    ensures ReachOf(kind, scope).Some? && ReachOf(kind, scope).value.Below?
    ensures PlaceOf(base, DecodeDirectory(scope).value) == Some(base + ReachOf(kind, scope).value.place)
  {
    assert TrimSpace(FILESYSTEM) == FILESYSTEM by { TrimOfTrimmed(FILESYSTEM); }
    ValidDirectoryStaysBelow(DecodeDirectory(scope).value);
  }

  lemma TrimOfTrimmed(s: string)
    requires s != "" && !IsSpace(s[0]) && !IsSpace(s[|s| - 1])
    ensures TrimSpace(s) == s
  {
  }

  /** The grant that approving the request itself would store. */
  function GrantOf(request: PermissionRequest, runId: string, attempt: AttemptId): Approval {
    Approval(runId, attempt, TrimSpace(request.kind), request.scope, TrimSpace(request.summary),
             ApprovalApproved, RunRunning, 0, None, None)
  }

  /** An approved grant of exactly the requested kind and scope covers a valid
      request if and only if the kind is written without surrounding blanks. */
  lemma ExactGrantCovers(request: PermissionRequest, grant: Approval)
    requires Validate(request)
    requires grant.state == ApprovalApproved && grant.kind == TrimSpace(request.kind) && grant.scope == request.scope
    ensures CoveredBy(request, grant) <==> TrimSpace(request.kind) == request.kind
  {
  }

  /** Coverage chains: what covers a covering grant covers the request. */
  lemma CoverageTransitive(a: PermissionRequest, b: PermissionRequest, grant: Approval, runId: string,
                           attempt: AttemptId)
    requires TrimSpace(a.kind) == a.kind && Validate(a) && Validate(b) && ValidScope(b.kind, grant.scope)
    requires CoveredBy(a, GrantOf(b, runId, attempt)) && CoveredBy(b, grant)
    ensures CoveredBy(a, grant)
  {
  }

  /** A kind with surrounding blanks is covered by no grant at all. */
  lemma BlankKindIsNeverCovered(request: PermissionRequest, grant: Approval)
    requires TrimSpace(request.kind) != request.kind
    ensures !CoveredBy(request, grant)
  {
    TrimOfTrimmed(FILESYSTEM);
    TrimOfTrimmed(COMMAND);
  }

  /** Such a request may be valid: " filesystem.write" is. */
  lemma BlankKindIsValid()
    ensures var request := PermissionRequest(" filesystem.write", Scope("{}", Some("src"), None, None, false), "");
      Validate(request) && TrimSpace(request.kind) != request.kind
  {
    var kind := " filesystem.write";
    assert kind[1..] == FILESYSTEM;
    TrimOfTrimmed(FILESYSTEM);
    assert TrimSpace(kind) == FILESYSTEM;
    assert Slashes("src") == "src" by { assert "src"[1..] == "rc" && "rc"[1..] == "c" && "c"[1..] == ""; }
    assert Split("src") == ["src"] by { assert "src"[1..] == "rc" && "rc"[1..] == "c" && "c"[1..] == ""; }
    assert Clean("src") == "src";
  }
}
