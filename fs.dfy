/** The file-system commands of fs.rs: `FileSystemError`, the directory
    listing with its ordering, and the guards of the read, write, create,
    delete and rename commands. The effects themselves (and the metadata
    timestamps and permissions) are oracle results passed in. */
module Fs {
  import opened Base
  import opened FsPaths

  /** `FileSystemError`: a code, a message, and the path it concerns. */
  datatype FsError = FsError(code: string, message: string, path: Option<string>)

  /** `FileSystemError::new`: an error about no particular path. */
  function ErrorNew(code: string, message: string): (e: FsError)
    ensures e.code == code && e.message == message && e.path.None?
  {
    FsError(code, message, None)
  }

  /** `FileSystemError::with_path`: the error carries the rendered path. */
  function ErrorWithPath(code: string, message: string, p: Path): (e: FsError)
    ensures e.code == code && e.message == message && e.path == Some(Render(p))
  {
    FsError(code, message, Some(Render(p)))
  }

  /** `FileMetadata` as `get_metadata` reports it. */
  datatype NodeMetadata = NodeMetadata(createdAt: string, modifiedAt: string, size: nat, permissions: string)

  /** `FileSystemNode`. */
  datatype Node = Node(id: string, name: string, nodeType: string, path: string,
                       metadata: NodeMetadata, children: Option<seq<Node>>)

  /** The node `read_directory` builds for the entry at `p`. */
  function NodeFor(fs: FileSystem, root: Path, p: Path, metadata: NodeMetadata): Node
  {
    var relative := RelativePath(p, root);
    Node(relative, FileName(p), if IsDir(fs, p) then "directory" else "file", relative, metadata, None)
  }

  /** Every node is "directory" exactly for directories and "file"
      otherwise, its id is its path (relative to the root when the entry is
      under it), its name is the entry's file name, and it has no children. */
  lemma NodeForShape(fs: FileSystem, root: Path, dir: Path, name: string, metadata: NodeMetadata)
    ensures var p := Child(dir, name); var n := NodeFor(fs, root, p, metadata);
      && (n.nodeType == "directory" <==> IsDir(fs, p))
      && (n.nodeType == "file" <==> !IsDir(fs, p))
      && n.id == n.path && n.children.None? && n.name == name && n.metadata == metadata
      && (StripPrefix(p, root).Some? ==> n.path == Render(StripPrefix(p, root).value))
      && (StripPrefix(p, root).None? ==> n.path == Render(p))
  {
  }

  // ---------------------------------------------------------------------------
  // The comparator of `read_directory`'s sort

  datatype Ordering = Less | Equal | Greater

  /** `a.cmp(&b)` on code sequences. */
  function CmpCodes(a: seq<int>, b: seq<int>): Ordering
  {
    if a == b then Equal else if LexLe(a, b) then Less else Greater
  }

  function NameKey(n: Node): seq<int>
  {
    Codes(Lower(n.name))
  }

  /** The sort comparator: a directory before a file, otherwise by
      lower-cased name. */
  function Compare(a: Node, b: Node): Ordering
  {
    if a.nodeType == "directory" && b.nodeType == "file" then Less
    else if a.nodeType == "file" && b.nodeType == "directory" then Greater
    else CmpCodes(NameKey(a), NameKey(b))
  }

  predicate WellTyped(n: Node)
  {
    n.nodeType == "directory" || n.nodeType == "file"
  }

  function Rank(n: Node): int
  {
    if n.nodeType == "directory" then 0 else 1
  }

  /** The order the comparator induces on well-typed nodes: by type rank,
      then by lower-cased name. */
  predicate KeyLe(a: Node, b: Node)
  {
    Rank(a) < Rank(b) || (Rank(a) == Rank(b) && LexLe(NameKey(a), NameKey(b)))
  }

  lemma CompareKey(a: Node, b: Node)
    requires WellTyped(a) && WellTyped(b)
    ensures Compare(a, b) != Greater <==> KeyLe(a, b)
    ensures Compare(a, b) == Equal <==> Rank(a) == Rank(b) && NameKey(a) == NameKey(b)
  {
    if NameKey(a) == NameKey(b) {
      LexLeReflexive(NameKey(a));
    }
  }

  lemma KeyLeTotal(a: Node, b: Node)
    ensures KeyLe(a, b) || KeyLe(b, a)
  {
    LexLeTotal(NameKey(a), NameKey(b));
  }

  lemma KeyLeTransitive(a: Node, b: Node, c: Node)
    requires KeyLe(a, b) && KeyLe(b, c)
    ensures KeyLe(a, c)
  {
    if Rank(a) == Rank(b) == Rank(c) {
      LexLeTransitive(NameKey(a), NameKey(b), NameKey(c));
    }
  }

  // ---------------------------------------------------------------------------
  // The stable sort

  /** `x` placed after every element of `s` that does not compare greater
      than it. */
  function Insert(x: Node, s: seq<Node>): (r: seq<Node>)
    ensures multiset(r) == multiset(s) + multiset{x}
    decreases |s|
  {
    if |s| == 0 then [x]
    else
      assert s == s[..|s| - 1] + [s[|s| - 1]];
      if Compare(s[|s| - 1], x) == Greater then Insert(x, s[..|s| - 1]) + [s[|s| - 1]]
      else s + [x]
  }

  /** `nodes.sort_by(comparator)`: a stable sort. */
  function SortNodes(s: seq<Node>): (r: seq<Node>)
    ensures multiset(r) == multiset(s)
    decreases |s|
  {
    if |s| == 0 then []
    else
      assert s == s[..|s| - 1] + [s[|s| - 1]];
      Insert(s[|s| - 1], SortNodes(s[..|s| - 1]))
  }

  ghost predicate AllWellTyped(s: seq<Node>)
  {
    forall i :: 0 <= i < |s| ==> WellTyped(s[i])
  }

  ghost predicate Sorted(s: seq<Node>)
  {
    forall i, j :: 0 <= i < j < |s| ==> KeyLe(s[i], s[j])
  }

  lemma WellTypedMultiset(s: seq<Node>, t: seq<Node>)
    requires AllWellTyped(s) && multiset(t) <= multiset(s)
    ensures AllWellTyped(t)
  {
    forall i | 0 <= i < |t| ensures WellTyped(t[i]) {
      assert t[i] in multiset(t);
      assert t[i] in multiset(s);
      var j :| 0 <= j < |s| && s[j] == t[i];
    }
  }

  lemma InsertUnfold(x: Node, s: seq<Node>)
    requires |s| > 0
    ensures Compare(s[|s| - 1], x) == Greater ==> Insert(x, s) == Insert(x, s[..|s| - 1]) + [s[|s| - 1]]
    ensures Compare(s[|s| - 1], x) != Greater ==> Insert(x, s) == s + [x]
  {
  }

  /** A bound on every element survives inserting one more element below it. */
  lemma {:induction false} InsertBounded(x: Node, s: seq<Node>, b: Node)
    requires KeyLe(x, b) && forall i :: 0 <= i < |s| ==> KeyLe(s[i], b)
    ensures forall i :: 0 <= i < |Insert(x, s)| ==> KeyLe(Insert(x, s)[i], b)
    decreases |s|
  {
    if |s| > 0 {
      InsertUnfold(x, s);
      if Compare(s[|s| - 1], x) == Greater {
        InsertBounded(x, s[..|s| - 1], b);
      }
    }
  }

  lemma SortedAppend(t: seq<Node>, b: Node)
    requires Sorted(t) && forall i :: 0 <= i < |t| ==> KeyLe(t[i], b)
    ensures Sorted(t + [b])
  {
  }

  lemma {:induction false} InsertSorted(x: Node, s: seq<Node>)
    requires WellTyped(x) && AllWellTyped(s) && Sorted(s)
    ensures Sorted(Insert(x, s))
    decreases |s|
  {
    if |s| > 0 {
      var init := s[..|s| - 1];
      var last := s[|s| - 1];
      SplitLast(s);
      InsertUnfold(x, s);
      CompareKey(last, x);
      if Compare(last, x) == Greater {
        InsertSorted(x, init);
        KeyLeTotal(x, last);
        InsertBounded(x, init, last);
        SortedAppend(Insert(x, init), last);
      } else {
        forall i | 0 <= i < |s| ensures KeyLe(s[i], x) {
          if i < |s| - 1 {
            KeyLeTransitive(s[i], last, x);
          }
        }
        SortedAppend(s, x);
      }
    }
  }

  /** The sorted listing is ordered by the comparator. */
  lemma {:induction false} SortNodesSorted(s: seq<Node>)
    requires AllWellTyped(s)
    ensures Sorted(SortNodes(s))
    decreases |s|
  {
    if |s| > 0 {
      var init := s[..|s| - 1];
      SortNodesSorted(init);
      WellTypedMultiset(init, SortNodes(init));
      InsertSorted(s[|s| - 1], SortNodes(init));
    }
  }

  /** `a` and `b` compare equal: same type, same lower-cased name. */
  predicate SameKey(a: Node, b: Node)
  {
    Rank(a) == Rank(b) && NameKey(a) == NameKey(b)
  }

  /** The nodes comparing equal to `y`, in order. */
  function EqualTo(s: seq<Node>, y: Node): seq<Node>
    decreases |s|
  {
    if |s| == 0 then []
    else EqualTo(s[..|s| - 1], y) + (if SameKey(s[|s| - 1], y) then [s[|s| - 1]] else [])
  }

  lemma {:induction false} EqualToAppend(a: seq<Node>, b: seq<Node>, y: Node)
    ensures EqualTo(a + b, y) == EqualTo(a, y) + EqualTo(b, y)
    decreases |b|
  {
    if |b| == 0 {
      assert a + b == a;
    } else {
      assert (a + b)[..|a + b| - 1] == a + b[..|b| - 1];
      EqualToAppend(a, b[..|b| - 1], y);
    }
  }

  lemma EqualToSingle(x: Node, y: Node)
    ensures EqualTo([x], y) == if SameKey(x, y) then [x] else []
  {
    assert [x][..0] == [];
  }

  /** Two nodes in the wrong order for the comparator cannot both compare
      equal to the same node, so their equal-to-`y` parts commute. */
  lemma SinglesCommute(x: Node, last: Node, y: Node)
    requires WellTyped(x) && WellTyped(last) && WellTyped(y)
    requires Compare(last, x) == Greater
    ensures EqualTo([x], y) + EqualTo([last], y) == EqualTo([last], y) + EqualTo([x], y)
  {
    EqualToSingle(x, y);
    EqualToSingle(last, y);
    CompareKey(last, x);
  }

  lemma {:induction false} InsertStable(x: Node, s: seq<Node>, y: Node)
    requires WellTyped(x) && WellTyped(y) && AllWellTyped(s)
    ensures EqualTo(Insert(x, s), y) == EqualTo(s, y) + EqualTo([x], y)
    decreases |s|
  {
    if |s| == 0 {
      assert Insert(x, s) == [x];
      assert EqualTo(s, y) == [];
    } else {
      var init := s[..|s| - 1];
      var last := s[|s| - 1];
      SplitLast(s);
      InsertUnfold(x, s);
      if Compare(last, x) == Greater {
        var ix := Insert(x, init);
        InsertStable(x, init, y);
        EqualToAppend(ix, [last], y);
        EqualToAppend(init, [last], y);
        SinglesCommute(x, last, y);
      } else {
        EqualToAppend(s, [x], y);
      }
    }
  }

  lemma SortNodesUnfold(s: seq<Node>)
    requires |s| > 0
    ensures SortNodes(s) == Insert(s[|s| - 1], SortNodes(s[..|s| - 1]))
  {
  }

  /** The sort is stable: the nodes that compare equal to any given node
      appear in the sorted listing in the order they were listed. */
  lemma {:induction false} SortNodesStable(s: seq<Node>, y: Node)
    requires AllWellTyped(s) && WellTyped(y)
    ensures EqualTo(SortNodes(s), y) == EqualTo(s, y)
    decreases |s|
  {
    if |s| > 0 {
      var init := s[..|s| - 1];
      var last := s[|s| - 1];
      var sortedInit := SortNodes(init);
      SplitLast(s);
      SortNodesUnfold(s);
      SortNodesStable(init, y);
      WellTypedMultiset(init, sortedInit);
      InsertStable(last, sortedInit, y);
      EqualToAppend(init, [last], y);
    }
  }

  /** The listing order as the comparator promises it: every directory
      before every file, and within one type names in non-decreasing
      lower-case order; and the result is a stable permutation. */
  lemma SortNodesSpec(s: seq<Node>)
    requires AllWellTyped(s)
    ensures var r := SortNodes(s);
      && multiset(r) == multiset(s)
      && (forall i, j :: 0 <= i < j < |r| && r[j].nodeType == "directory" ==> r[i].nodeType == "directory")
      && (forall i, j :: 0 <= i < j < |r| && r[i].nodeType == r[j].nodeType ==>
            LexLe(Codes(Lower(r[i].name)), Codes(Lower(r[j].name))))
      && (forall y :: WellTyped(y) ==> EqualTo(r, y) == EqualTo(s, y))
  {
    var r := SortNodes(s);
    SortNodesSorted(s);
    WellTypedMultiset(s, r);
    forall y | WellTyped(y) ensures EqualTo(r, y) == EqualTo(s, y) {
      SortNodesStable(s, y);
    }
    forall i, j | 0 <= i < j < |r| && r[j].nodeType == "directory" ensures r[i].nodeType == "directory" {
      assert KeyLe(r[i], r[j]);
    }
  }

  // ---------------------------------------------------------------------------
  // read_directory

  /** The nodes built from the listed entries, in listing order, or the
      first entry or metadata error. */
  function Listing(fs: FileSystem, root: Path, dir: Path, entries: seq<Result<string, string>>,
                   metadata: Path -> Result<NodeMetadata, string>): (r: Result<seq<Node>, FsError>)
    ensures r.Ok? ==> |r.value| == |entries| && AllWellTyped(r.value)
    ensures r.Ok? ==> forall i :: 0 <= i < |entries| ==>
      entries[i].Ok? && metadata(Child(dir, entries[i].value)).Ok?
      && r.value[i] == NodeFor(fs, root, Child(dir, entries[i].value), metadata(Child(dir, entries[i].value)).value)
    decreases |entries|
  {
    if |entries| == 0 then Ok([])
    else match Listing(fs, root, dir, entries[..|entries| - 1], metadata)
      case Err(e) => Err(e)
      case Ok(nodes) =>
        match entries[|entries| - 1]
        case Err(msg) => Err(ErrorWithPath("ENTRY_ERROR", msg, dir))
        case Ok(name) =>
          var p := Child(dir, name);
          match metadata(p)
          case Err(msg) => Err(ErrorWithPath("METADATA_ERROR", msg, p))
          case Ok(m) =>
            assert forall i :: 0 <= i < |entries| - 1 ==> entries[..|entries| - 1][i] == entries[i];
            Ok(nodes + [NodeFor(fs, root, p, m)])
  }

  /** One more entry after a successful prefix: its entry error, its
      metadata error, or one more node. */
  lemma ListingStep(fs: FileSystem, root: Path, dir: Path, entries: seq<Result<string, string>>, i: nat,
                    metadata: Path -> Result<NodeMetadata, string>, nodes: seq<Node>)
    requires i < |entries| && Listing(fs, root, dir, entries[..i], metadata) == Ok(nodes)
    ensures entries[i].Err? ==>
      Listing(fs, root, dir, entries[..i + 1], metadata) == Err(ErrorWithPath("ENTRY_ERROR", entries[i].error, dir))
    ensures entries[i].Ok? && metadata(Child(dir, entries[i].value)).Err? ==>
      Listing(fs, root, dir, entries[..i + 1], metadata)
        == Err(ErrorWithPath("METADATA_ERROR", metadata(Child(dir, entries[i].value)).error, Child(dir, entries[i].value)))
    ensures entries[i].Ok? && metadata(Child(dir, entries[i].value)).Ok? ==>
      Listing(fs, root, dir, entries[..i + 1], metadata)
        == Ok(nodes + [NodeFor(fs, root, Child(dir, entries[i].value), metadata(Child(dir, entries[i].value)).value)])
  {
    assert entries[..i + 1][..i] == entries[..i];
  }

  /** The first failing entry decides the whole listing. */
  lemma {:induction false} ListingStopsAtError(fs: FileSystem, root: Path, dir: Path, entries: seq<Result<string, string>>,
                                              k: nat, metadata: Path -> Result<NodeMetadata, string>)
    requires k <= |entries| && Listing(fs, root, dir, entries[..k], metadata).Err?
    ensures Listing(fs, root, dir, entries, metadata) == Listing(fs, root, dir, entries[..k], metadata)
    decreases |entries| - k
  {
    if k < |entries| {
      assert entries[..|entries| - 1][..k] == entries[..k];
      ListingStopsAtError(fs, root, dir, entries[..|entries| - 1], k, metadata);
    } else {
      assert entries[..k] == entries;
    }
  }

  /** What `read_directory` answers: PATH_NOT_FOUND ("Directory not
      found") for a missing directory, READ_ERROR when it cannot be listed,
      the first entry or metadata error, or else the nodes sorted. */
  function ReadDirectoryResult(fs: FileSystem, cwd: Path, path: Path,
                               listing: Result<seq<Result<string, string>>, string>,
                               metadata: Path -> Result<NodeMetadata, string>): Result<seq<Node>, FsError>
  {
    var root := ProjectRoot(fs, cwd);
    var full := Resolve(root, path);
    if !Exists(fs, full) then Err(ErrorWithPath("PATH_NOT_FOUND", "Directory not found", full))
    else match listing
      case Err(msg) => Err(ErrorWithPath("READ_ERROR", msg, full))
      case Ok(entries) =>
        match Listing(fs, root, full, entries, metadata)
        case Err(e) => Err(e)
        case Ok(nodes) => Ok(SortNodes(nodes))
  }

  /** A successful listing holds one node per entry, directories first,
      names in non-decreasing lower-case order within each type, entries
      with equal keys in listing order; an unreadable directory or entry is
      never partially listed. */
  lemma ReadDirectoryOrdered(fs: FileSystem, cwd: Path, path: Path,
                             listing: Result<seq<Result<string, string>>, string>,
                             metadata: Path -> Result<NodeMetadata, string>)
    ensures var r := ReadDirectoryResult(fs, cwd, path, listing, metadata);
      r.Ok? ==>
        && listing.Ok? && |r.value| == |listing.value|
        && (forall i, j :: 0 <= i < j < |r.value| && r.value[j].nodeType == "directory" ==>
              r.value[i].nodeType == "directory")
        && (forall i, j :: 0 <= i < j < |r.value| && r.value[i].nodeType == r.value[j].nodeType ==>
              LexLe(Codes(Lower(r.value[i].name)), Codes(Lower(r.value[j].name))))
        && (forall i :: 0 <= i < |r.value| ==> r.value[i].id == r.value[i].path && r.value[i].children.None?)
    ensures var r := ReadDirectoryResult(fs, cwd, path, listing, metadata);
      !Exists(fs, Resolve(ProjectRoot(fs, cwd), path)) ==> r.Err? && r.error.code == "PATH_NOT_FOUND"
  {
    var r := ReadDirectoryResult(fs, cwd, path, listing, metadata);
    if r.Ok? {
      var root := ProjectRoot(fs, cwd);
      var full := Resolve(root, path);
      var nodes := Listing(fs, root, full, listing.value, metadata).value;
      SortNodesSpec(nodes);
      forall k | 0 <= k < |r.value| ensures r.value[k].id == r.value[k].path && r.value[k].children.None? {
        assert r.value[k] in multiset(nodes);
        var j :| 0 <= j < |nodes| && nodes[j] == r.value[k];
      }
    }
  }

  /** The loop of `read_directory` over the entries: each entry's path
      and metadata become one node, and the first entry or metadata error
      ends the listing. */
  method ListEntries(fs: FileSystem, root: Path, dir: Path, entries: seq<Result<string, string>>,
                     metadata: Path -> Result<NodeMetadata, string>)
    returns (r: Result<seq<Node>, FsError>)
    ensures r == Listing(fs, root, dir, entries, metadata)
  {
    var nodes: seq<Node> := [];
    var i := 0;
    while i < |entries|
      invariant 0 <= i <= |entries|
      invariant Listing(fs, root, dir, entries[..i], metadata) == Ok(nodes)
    {
      ListingStep(fs, root, dir, entries, i, metadata, nodes);
      match entries[i]
      case Err(msg) =>
        ListingStopsAtError(fs, root, dir, entries, i + 1, metadata);
        return Err(ErrorWithPath("ENTRY_ERROR", msg, dir));
      case Ok(name) =>
        var p := Child(dir, name);
        var relative := RelativePath(p, root);
        match metadata(p)
        case Err(msg) =>
          ListingStopsAtError(fs, root, dir, entries, i + 1, metadata);
          return Err(ErrorWithPath("METADATA_ERROR", msg, p));
        case Ok(m) =>
          var node := Node(relative, FileName(p), if IsDir(fs, p) then "directory" else "file", relative, m, None);
          nodes := nodes + [node];
      i := i + 1;
    }
    assert entries[..i] == entries;
    r := Ok(nodes);
  }

  /** `read_directory`. `cwd` is the working directory the project root
      is searched from; `listing` is `fs::read_dir`'s answer (its error, or
      the entries' file names and per-entry errors in iteration order);
      `metadata` is `get_metadata`'s answer for each entry path. */
  method ReadDirectory(fs: FileSystem, cwd: Path, path: Path,
                       listing: Result<seq<Result<string, string>>, string>,
                       metadata: Path -> Result<NodeMetadata, string>)
    returns (r: Result<seq<Node>, FsError>)
    ensures r == ReadDirectoryResult(fs, cwd, path, listing, metadata)
  {
    var root := GetProjectRoot(fs, cwd);
    var full := if path.absolute then path else JoinPath(root, path);
    if !Exists(fs, full) {
      return Err(ErrorWithPath("PATH_NOT_FOUND", "Directory not found", full));
    }
    if listing.Err? {
      return Err(ErrorWithPath("READ_ERROR", listing.error, full));
    }
    var listed := ListEntries(fs, root, full, listing.value, metadata);
    match listed
    case Err(e) =>
      r := Err(e);
    case Ok(nodes) =>
      r := Ok(SortNodes(nodes));
  }


  // ---------------------------------------------------------------------------
  // The other commands: their checks and error mapping

  /** `read_file`: a missing file is FILE_NOT_FOUND before any read. */
  function ReadFile(fs: FileSystem, root: Path, path: Path, read: Result<string, string>): (r: Result<string, FsError>)
    ensures !Exists(fs, JoinPath(root, path)) ==>
      r == Err(FsError("FILE_NOT_FOUND", "File not found", Some(Render(JoinPath(root, path)))))
    ensures Exists(fs, JoinPath(root, path)) ==>
      (read.Ok? ==> r == Ok(read.value)) && (read.Err? ==> r == Err(FsError("READ_ERROR", read.error, Some(Render(JoinPath(root, path))))))
  {
    var full := JoinPath(root, path);
    if !Exists(fs, full) then Err(ErrorWithPath("FILE_NOT_FOUND", "File not found", full))
    else match read
      case Ok(text) => Ok(text)
      case Err(msg) => Err(ErrorWithPath("READ_ERROR", msg, full))
  }

  /** `write_file`: the parent directory is created first (a failure is
      CREATE_DIR_ERROR about the parent), then the file is written. */
  function WriteFile(root: Path, path: Path, createParent: Result<(), string>, write: Result<(), string>): (r: Result<(), FsError>)
    ensures var full := JoinPath(root, path);
      && (Parent(full).Some? && createParent.Err? ==>
            r == Err(FsError("CREATE_DIR_ERROR", createParent.error, Some(Render(Parent(full).value)))))
      && ((Parent(full).None? || createParent.Ok?) ==>
            (write.Ok? ==> r == Ok(())) && (write.Err? ==> r == Err(FsError("WRITE_ERROR", write.error, Some(Render(full))))))
  {
    var full := JoinPath(root, path);
    if Parent(full).Some? && createParent.Err? then
      Err(ErrorWithPath("CREATE_DIR_ERROR", createParent.error, Parent(full).value))
    else if write.Err? then Err(ErrorWithPath("WRITE_ERROR", write.error, full))
    else Ok(())
  }

  /** `create_directory`: failures are CREATE_ERROR about the full path. */
  function CreateDirectory(root: Path, path: Path, create: Result<(), string>): (r: Result<(), FsError>)
    ensures create.Ok? <==> r.Ok?
    ensures create.Err? ==> r == Err(FsError("CREATE_ERROR", create.error, Some(Render(JoinPath(root, path)))))
  {
    match create
    case Ok(_) => Ok(())
    case Err(msg) => Err(ErrorWithPath("CREATE_ERROR", msg, JoinPath(root, path)))
  }

  /** `delete_path`: a missing path is PATH_NOT_FOUND before anything is
      removed; a directory is removed recursively, anything else as a file. */
  function DeletePath(fs: FileSystem, root: Path, path: Path,
                      removeDirAll: Result<(), string>, removeFile: Result<(), string>): (r: Result<(), FsError>)
    ensures var full := JoinPath(root, path);
      && (!Exists(fs, full) ==> r == Err(FsError("PATH_NOT_FOUND", "Path not found", Some(Render(full)))))
      && (Exists(fs, full) ==>
            var removal := if IsDir(fs, full) then removeDirAll else removeFile;
            (removal.Ok? ==> r == Ok(())) && (removal.Err? ==> r == Err(FsError("DELETE_ERROR", removal.error, Some(Render(full))))))
  {
    var full := JoinPath(root, path);
    if !Exists(fs, full) then Err(ErrorWithPath("PATH_NOT_FOUND", "Path not found", full))
    else
      var removal := if IsDir(fs, full) then removeDirAll else removeFile;
      match removal
      case Ok(_) => Ok(())
      case Err(msg) => Err(ErrorWithPath("DELETE_ERROR", msg, full))
  }

  /** `rename_path`: a missing source is PATH_NOT_FOUND ("Source path not
      found") before anything else; then the destination's parent is
      created; a failed rename is reported against the source path. */
  function RenamePath(fs: FileSystem, root: Path, oldPath: Path, newPath: Path,
                      createParent: Result<(), string>, rename: Result<(), string>): (r: Result<(), FsError>)
    ensures var oldFull := JoinPath(root, oldPath); var newFull := JoinPath(root, newPath);
      && (!Exists(fs, oldFull) ==> r == Err(FsError("PATH_NOT_FOUND", "Source path not found", Some(Render(oldFull)))))
      && (Exists(fs, oldFull) && Parent(newFull).Some? && createParent.Err? ==>
            r == Err(FsError("CREATE_DIR_ERROR", createParent.error, Some(Render(Parent(newFull).value)))))
      && (Exists(fs, oldFull) && (Parent(newFull).None? || createParent.Ok?) ==>
            (rename.Ok? ==> r == Ok(())) && (rename.Err? ==> r == Err(FsError("RENAME_ERROR", rename.error, Some(Render(oldFull))))))
  {
    var oldFull := JoinPath(root, oldPath);
    var newFull := JoinPath(root, newPath);
    if !Exists(fs, oldFull) then Err(ErrorWithPath("PATH_NOT_FOUND", "Source path not found", oldFull))
    else if Parent(newFull).Some? && createParent.Err? then
      Err(ErrorWithPath("CREATE_DIR_ERROR", createParent.error, Parent(newFull).value))
    else if rename.Err? then Err(ErrorWithPath("RENAME_ERROR", rename.error, oldFull))
    else Ok(())
  }

  /** No command reports success on a missing target: reading, deleting
      and renaming a path that does not exist always fail, with the
      not-found code and the full path, whatever the file system would have
      answered. */
  lemma MissingTargetFails(fs: FileSystem, root: Path, p: Path, q: Path,
                           read: Result<string, string>, a: Result<(), string>, b: Result<(), string>)
    requires !Exists(fs, JoinPath(root, p))
    ensures ReadFile(fs, root, p, read).Err? && ReadFile(fs, root, p, read).error.code == "FILE_NOT_FOUND"
    ensures DeletePath(fs, root, p, a, b).Err? && DeletePath(fs, root, p, a, b).error.code == "PATH_NOT_FOUND"
    ensures RenamePath(fs, root, p, q, a, b).Err? && RenamePath(fs, root, p, q, a, b).error.code == "PATH_NOT_FOUND"
    ensures RenamePath(fs, root, p, q, a, b).error.path == Some(Render(JoinPath(root, p)))
  {
  }
}
