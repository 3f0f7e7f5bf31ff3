/** The path rules of the file-system commands (fs.rs): paths as
    components, `Path::join`, `strip_prefix`, `parent` and `file_name`, the
    project-root search, and the watcher's change messages. The file system
    is an abstract set of existing paths and a set of directories. */
module FsPaths {
  import opened Base

  /** A normalised path: whether it starts at the root, and its components. */
  datatype Path = Path(absolute: bool, comps: seq<string>)

  /** What the commands observe of the file system. */
  datatype FileSystem = FileSystem(existing: set<Path>, directories: set<Path>)

  predicate Exists(fs: FileSystem, p: Path) { p in fs.existing }

  predicate IsDir(fs: FileSystem, p: Path) { p in fs.directories }

  /** `base.join(p)`: an absolute argument replaces the base. */
  function JoinPath(base: Path, p: Path): Path
  {
    if p.absolute then p else Path(base.absolute, base.comps + p.comps)
  }

  /** `dir.join(name)` for a single file name. */
  function Child(dir: Path, name: string): Path
  {
    JoinPath(dir, Path(false, [name]))
  }

  /** `Path::parent`: None for the root and for the empty relative path. */
  function Parent(p: Path): Option<Path>
  {
    if |p.comps| == 0 then None else Some(Path(p.absolute, p.comps[..|p.comps| - 1]))
  }

  /** `path.file_name().unwrap_or_default()`. */
  function FileName(p: Path): string
  {
    if |p.comps| == 0 then "" else p.comps[|p.comps| - 1]
  }

  /** `p.strip_prefix(base)`: the remaining components when `base` is a
      component-wise prefix of `p` (and both are absolute or both relative). */
  function StripPrefix(p: Path, base: Path): Option<Path>
  {
    if p.absolute == base.absolute && IsPrefix(base.comps, p.comps)
    then Some(Path(false, p.comps[|base.comps|..]))
    else None
  }

  /** `to_string_lossy()` of a path. */
  function Render(p: Path): string
  {
    (if p.absolute then "/" else "") + Join(p.comps, "/")
  }

  /** `strip_prefix` and `join` are inverse: stripping the root from a path
      under it and joining the rest back onto the root gives the path, and a
      relative path joined onto the root strips back to itself. */
  lemma StripPrefixJoin(p: Path, root: Path, rel: Path)
    ensures StripPrefix(p, root).Some? ==> JoinPath(root, StripPrefix(p, root).value) == p
    ensures !rel.absolute ==> StripPrefix(JoinPath(root, rel), root) == Some(rel)
  {
    if StripPrefix(p, root).Some? {
      assert root.comps + p.comps[|root.comps|..] == p.comps;
    }
    if !rel.absolute {
      var q := JoinPath(root, rel);
      assert q.comps[..|root.comps|] == root.comps;
      assert q.comps[|root.comps|..] == rel.comps;
    }
  }

  /** `read_directory`'s resolution: an absolute argument is used as
      given, a relative one is joined onto the project root. */
  function Resolve(root: Path, p: Path): (r: Path)
    ensures p.absolute ==> r == p
    ensures !p.absolute ==> r == Path(root.absolute, root.comps + p.comps)
  {
    if p.absolute then p else JoinPath(root, p)
  }

  /** The explicit absolute check in `read_directory` agrees with plain
      `join`, which every other command uses: there too an absolute
      argument escapes the project root. */
  lemma ResolveIsJoin(root: Path, p: Path)
    ensures Resolve(root, p) == JoinPath(root, p)
  {
  }

  /** `relative_path` in `read_directory`: the entry path with the project
      root stripped when the entry lies under it, the whole path otherwise. */
  function RelativePath(p: Path, root: Path): (r: string)
    ensures StripPrefix(p, root).Some? ==> r == Render(StripPrefix(p, root).value)
    ensures StripPrefix(p, root).None? ==> r == Render(p)
  {
    match StripPrefix(p, root)
    case Some(rest) => Render(rest)
    case None => Render(p)
  }

  /** An entry under the root gets a relative path string (no leading
      '/'), and it names the entry once joined back onto the root. */
  lemma RelativePathUnderRoot(root: Path, rel: Path)
    requires !rel.absolute
    ensures RelativePath(JoinPath(root, rel), root) == Join(rel.comps, "/")
  {
    StripPrefixJoin(JoinPath(root, rel), root, rel);
  }

  // ---------------------------------------------------------------------------
  // get_project_root

  /** `dir` holds one of the project markers. */
  predicate HasMarker(fs: FileSystem, dir: Path)
  {
    || Exists(fs, Child(dir, "package.json"))
    || Exists(fs, Child(dir, "Cargo.toml"))
    || Exists(fs, Child(dir, ".git"))
    || Exists(fs, Child(dir, "deno.json"))
  }

  /** The first marked directory met walking up from `dir`, never looking
      at a directory without a parent. */
  function NearestMarked(fs: FileSystem, dir: Path): Option<Path>
    decreases |dir.comps|
  {
    if |dir.comps| == 0 then None
    else if HasMarker(fs, dir) then Some(dir)
    else NearestMarked(fs, Parent(dir).value)
  }

  function ProjectRoot(fs: FileSystem, cwd: Path): Path
  {
    match NearestMarked(fs, cwd)
    case Some(dir) => dir
    case None => cwd
  }

  /** `get_project_root`: walks from the working directory towards the
      root while there is a parent, returning the first directory that holds
      a marker, or the working directory when none does. */
  method GetProjectRoot(fs: FileSystem, cwd: Path) returns (root: Path)
    ensures root == ProjectRoot(fs, cwd)
  {
    var dir := cwd;
    while Parent(dir).Some?
      invariant NearestMarked(fs, dir) == NearestMarked(fs, cwd)
      decreases |dir.comps|
    {
      if HasMarker(fs, dir) {
        return dir;
      }
      dir := Parent(dir).value;
    }
    return cwd;
  }

  /** The ancestor of `p` made of its first `k` components. */
  function Ancestor(p: Path, k: nat): Path
    requires k <= |p.comps|
  {
    Path(p.absolute, p.comps[..k])
  }

  lemma {:induction false} NearestMarkedIsNearest(fs: FileSystem, cwd: Path, m: nat)
    requires m <= |cwd.comps|
    ensures var r := NearestMarked(fs, Ancestor(cwd, m));
      && (r.None? ==> forall j :: 1 <= j <= m ==> !HasMarker(fs, Ancestor(cwd, j)))
      && (r.Some? ==> exists k :: 1 <= k <= m && r.value == Ancestor(cwd, k) && HasMarker(fs, r.value)
                         && forall j :: k < j <= m ==> !HasMarker(fs, Ancestor(cwd, j)))
    decreases m
  {
    if m > 0 {
      var a := Ancestor(cwd, m);
      assert Parent(a).value == Ancestor(cwd, m - 1);
      NearestMarkedIsNearest(fs, cwd, m - 1);
      if HasMarker(fs, a) {
        assert NearestMarked(fs, a).value == Ancestor(cwd, m);
      }
    }
  }

  /** `get_project_root` finds the nearest marked directory among the
      working directory and its ancestors below the file-system root; when
      there is none, the working directory itself. */
  lemma ProjectRootIsNearest(fs: FileSystem, cwd: Path)
    ensures var n := |cwd.comps|; var r := ProjectRoot(fs, cwd);
      || (exists k :: 1 <= k <= n && r == Ancestor(cwd, k) && HasMarker(fs, r)
                     && forall j :: k < j <= n ==> !HasMarker(fs, Ancestor(cwd, j)))
      || (r == cwd && forall j :: 1 <= j <= n ==> !HasMarker(fs, Ancestor(cwd, j)))
  {
    NearestMarkedIsNearest(fs, cwd, |cwd.comps|);
    assert Ancestor(cwd, |cwd.comps|) == cwd;
  }

  // ---------------------------------------------------------------------------
  // The watcher's change messages

  /** `notify::EventKind`. */
  datatype EventKind = Any | Access | Create | Modify | Remove | Other

  /** The event-type match of `setup_fs_watcher`; other kinds are skipped. */
  function EventType(kind: EventKind): Option<string>
  {
    match kind
    case Create => Some("create")
    case Modify => Some("modify")
    case Remove => Some("delete")
    case _ => None
  }

  /** The payload of an `fs-change` event. */
  datatype ChangeMessage = ChangeMessage(eventType: string, path: string)

  /** The `fs-change` messages one event produces: one per event path under
      the project root, in order, carrying the path relative to the root. */
  function ChangeMessages(root: Path, kind: EventKind, paths: seq<Path>): seq<ChangeMessage>
    decreases |paths|
  {
    if |paths| == 0 || EventType(kind).None? then []
    else
      var rest := ChangeMessages(root, kind, paths[..|paths| - 1]);
      match StripPrefix(paths[|paths| - 1], root)
      case Some(rel) => rest + [ChangeMessage(EventType(kind).value, Render(rel))]
      case None => rest
  }

  /** The paths of an event that lie under the root. */
  function PathsUnder(root: Path, paths: seq<Path>): seq<Path>
    decreases |paths|
  {
    if |paths| == 0 then []
    else
      var rest := PathsUnder(root, paths[..|paths| - 1]);
      if StripPrefix(paths[|paths| - 1], root).Some? then rest + [paths[|paths| - 1]] else rest
  }

  /** Create, modify and remove events become "create", "modify" and
      "delete" messages, one for each path under the root, in order, each
      naming that path relative to the root; every other kind of event
      produces no message. */
  lemma {:induction false} ChangeMessagesSpec(root: Path, kind: EventKind, paths: seq<Path>)
    ensures EventType(kind).None? ==> ChangeMessages(root, kind, paths) == []
    ensures EventType(kind).Some? ==>
      var msgs := ChangeMessages(root, kind, paths);
      var under := PathsUnder(root, paths);
      && |msgs| == |under|
      && forall i :: 0 <= i < |msgs| ==>
           && msgs[i].eventType == EventType(kind).value
           && StripPrefix(under[i], root).Some?
           && msgs[i].path == Render(StripPrefix(under[i], root).value)
           && JoinPath(root, StripPrefix(under[i], root).value) == under[i]
    decreases |paths|
  {
    if |paths| > 0 && EventType(kind).Some? {
      ChangeMessagesSpec(root, kind, paths[..|paths| - 1]);
      var msgs := ChangeMessages(root, kind, paths);
      var under := PathsUnder(root, paths);
      forall i | 0 <= i < |msgs|
        ensures JoinPath(root, StripPrefix(under[i], root).value) == under[i]
      {
        StripPrefixJoin(under[i], root, under[i]);
      }
    }
  }

  /** The kind mapping, stated for every kind. */
  lemma EventTypeSpec(kind: EventKind)
    ensures EventType(kind) == Some("create") <==> kind == Create
    ensures EventType(kind) == Some("modify") <==> kind == Modify
    ensures EventType(kind) == Some("delete") <==> kind == Remove
    ensures EventType(kind).None? <==> kind !in {Create, Modify, Remove}
  {
  }
}
