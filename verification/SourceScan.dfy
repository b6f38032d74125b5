/**
 * Which source of a project claims which markdown file: the full walk
 * (`scanProjectSources`) and the single-file shortcut (`ResolveFileInfo`),
 * apps/penpal/internal/cache/cache.go.
 */
module SourceRules {
  import opened Characters
  import opened Collections
  import opened FileTree
  import opened TextSearch

  const ALL_MARKDOWN := "__all_markdown__"

  /** What the registry says about a source type; `classify` maps a source-relative path, "" hides it. */
  datatype SourceType = SourceType(skipDirs: set<string>, requireSibling: string, classify: Option<Path -> string>)

  /** `rootPath` is used by tree sources, `files` by explicit lists. */
  datatype Source = Source(
    name: string,
    kind: string,
    rootPath: Option<Path>,
    files: seq<Path>,
    sourceTypeName: string,
    auto: bool)
  {
    predicate IsTree() { kind == "thoughts" || kind == "tree" }
    predicate IsAllMarkdown() { name == ALL_MARKDOWN }
  }

  datatype Project = Project(name: string, workspace: string, path: Path, sources: seq<Source>)

  /** The file system, git's ignore rules for directories, and the source type registry. */
  datatype Env = Env(root: Node, ignored: Path -> bool, registry: map<string, SourceType>)

  datatype FileInfo = FileInfo(
    project: string,
    workspace: string,
    projectPath: Path,
    source: string,
    sourceType: string,
    sourceAuto: bool,
    path: Path,
    fullPath: Path,
    name: string,
    title: string,
    modTime: int,
    fileType: string)

  function TypeOf(env: Env, src: Source): Option<SourceType> {
    var n := if src.sourceTypeName == "" then src.name else src.sourceTypeName;
    if n in env.registry then Some(env.registry[n]) else None
  }

  predicate Contains(s: string, t: string) {
    exists i | 0 <= i <= |s| - |t| :: OccursAt(s, t, i)
  }

  /** A slash-free word occurs in a path iff it occurs in a component. */
  function TypeByWord(p: Path): string {
    if exists i | 0 <= i < |p| :: Contains(p[i], "research") then "research"
    else if exists i | 0 <= i < |p| :: Contains(p[i], "plan") then "plan"
    else "other"
  }

  function Classify(st: Option<SourceType>, relToSource: Path): string {
    if st.Some? && st.value.classify.Some? then st.value.classify.value(relToSource) else TypeByWord(relToSource)
  }

  predicate Skips(st: Option<SourceType>, name: string) {
    st.Some? && name in st.value.skipDirs
  }

  predicate SiblingPresent(env: Env, st: Option<SourceType>, p: Path) {
    st.Some? && st.value.requireSibling != "" ==>
      KindAt(env.root, Parent(p) + [st.value.requireSibling]) != Missing
  }

  /** The directory holds a `.git` that is not a directory: a nested worktree or submodule. */
  predicate NestedRepo(env: Env, dir: Path) {
    KindAt(env.root, dir + [".git"]).Regular?
  }

  function Info(proj: Project, src: Source, p: Path, rel: Path, title: string, modTime: int,
                fileType: string): FileInfo {
    FileInfo(proj.name, proj.workspace, proj.path, src.name, src.kind, src.auto, rel, Rel(proj.path, p), Base(p),
             title, modTime, fileType)
  }

  /** The entry a tree source makes for the file at `p`, unless its filters reject the file. */
  function TreeEntry(env: Env, proj: Project, src: Source, p: Path): Option<FileInfo>
    requires src.rootPath.Some?
  {
    var st := TypeOf(env, src);
    var rel := Rel(src.rootPath.value, p);
    match KindAt(env.root, p)
    case Regular(m, t) =>
      if HasMdSuffix(p) && SiblingPresent(env, st, p) && Classify(st, rel) != ""
      then Some(Info(proj, src, p, rel, t, m, Classify(st, rel)))
      else None
    case _ => None
  }

  /** Names in explicit lists are lower-cased before the word search. */
  function ToLower(s: string): string {
    seq(|s|, i requires 0 <= i < |s| => Lower(s[i]))
  }

  /** The entry of an explicitly listed file. */
  function ListedEntry(env: Env, proj: Project, src: Source, p: Path, withTitle: bool): Option<FileInfo> {
    match KindAt(env.root, p)
    case Regular(m, t) =>
      if HasMdSuffix(p)
      then Some(Info(proj, src, p, [Base(p)], if withTitle then t else "", m, TypeByWord([ToLower(Base(p))])))
      else None
    case _ => None
  }
}

/** `scanProjectSources`. */
module SourceScan {
  import opened Collections
  import opened FileTree
  import opened SourceRules

  /** The walk callback answers SkipDir for this directory. */
  predicate Prunes(env: Env, src: Source, root: Path, dir: Path) {
    || (dir != root && NestedRepo(env, dir))
    || Base(dir) == ".git"
    || (dir != root && env.ignored(dir))
    || Skips(TypeOf(env, src), Base(dir))
  }

  /** The files a walk from `root` hands to the callback, in order. */
  function WalkNode(env: Env, src: Source, root: Path, at: Path, n: Node): seq<Path>
    decreases n, 0
  {
    match n
    case File(_, _) => [at]
    case Dir(_, entries) => if Prunes(env, src, root, at) then [] else WalkEntries(env, src, root, at, entries)
  }

  function WalkEntries(env: Env, src: Source, root: Path, at: Path, entries: seq<Entry>): seq<Path>
    decreases entries, 0
  {
    if entries == [] then [] else
      WalkNode(env, src, root, at + [entries[0].name], entries[0].node) + WalkEntries(env, src, root, at, entries[1..])
  }

  /** The variables the walk closure captures. */
  datatype Found = Found(files: seq<FileInfo>, seen: set<Path>)

  function VisitWalked(env: Env, proj: Project, src: Source, f: Found, p: Path): Found
    requires src.rootPath.Some?
  {
    var rel := Rel(proj.path, p);
    if !src.IsAllMarkdown() && rel in f.seen then f else
      match TreeEntry(env, proj, src, p)
      case None => f
      case Some(e) => Found(f.files + [e], if src.IsAllMarkdown() then f.seen else f.seen + {rel})
  }

  function VisitListed(env: Env, proj: Project, src: Source, f: Found, p: Path): Found {
    var rel := Rel(proj.path, p);
    if rel in f.seen then f else
      match ListedEntry(env, proj, src, p, false)
      case None => f
      case Some(e) => Found(f.files + [e], f.seen + {rel})
  }

  function Visit(env: Env, proj: Project, src: Source, f: Found, p: Path): Found {
    if src.IsTree() then (if src.rootPath.Some? then VisitWalked(env, proj, src, f, p) else f)
    else VisitListed(env, proj, src, f, p)
  }

  function VisitAll(env: Env, proj: Project, src: Source, f: Found, paths: seq<Path>): Found
    decreases paths
  {
    if paths == [] then f else VisitAll(env, proj, src, Visit(env, proj, src, f, paths[0]), paths[1..])
  }

  /** The files a source offers, in order. */
  function Offered(env: Env, src: Source): seq<Path> {
    if src.IsTree() then
      match src.rootPath
      case None => []
      case Some(root) =>
        (match Lookup(env.root, root)
         case None => []
         case Some(n) => WalkNode(env, src, root, root, n))
    else if src.kind == "files" then src.files
    else []
  }

  function ScanSources(env: Env, proj: Project, sources: seq<Source>): Found {
    if sources == [] then Found([], {}) else
      var last := sources[|sources| - 1];
      VisitAll(env, proj, last, ScanSources(env, proj, sources[..|sources| - 1]), Offered(env, last))
  }

  lemma {:induction false} VisitAllConcat(env: Env, proj: Project, src: Source, f: Found, a: seq<Path>, b: seq<Path>)
    ensures VisitAll(env, proj, src, f, a + b) == VisitAll(env, proj, src, VisitAll(env, proj, src, f, a), b)
    decreases a
  {
    if a == [] {
      assert a + b == b;
    } else {
      assert (a + b)[1..] == a[1..] + b;
      VisitAllConcat(env, proj, src, Visit(env, proj, src, f, a[0]), a[1..], b);
    }
  }

  /** The scan itself: nested walks whose callback appends to `files` and marks `seen`. */
  class Scanner {
    var files: seq<FileInfo>
    var seen: set<Path>

    ghost function Abs(): Found
      reads this
    {
      Found(files, seen)
    }

    constructor ()
      ensures Abs() == Found([], {})
    {
      files, seen := [], {};
    }

    /** `filepath.WalkDir` with the callback for one tree source. */
    method WalkDir(env: Env, proj: Project, src: Source, at: Path, n: Node)
      requires src.IsTree() && src.rootPath.Some?
      modifies this
      ensures Abs() == VisitAll(env, proj, src, old(Abs()), WalkNode(env, src, src.rootPath.value, at, n))
      decreases n, 0
    {
      match n {
        case File(_, _) =>
          OnFile(env, proj, src, at);
        case Dir(_, entries) =>
          if !Prunes(env, src, src.rootPath.value, at) {
            WalkAll(env, proj, src, at, entries);
          }
      }
    }

    method WalkAll(env: Env, proj: Project, src: Source, at: Path, entries: seq<Entry>)
      requires src.IsTree() && src.rootPath.Some?
      modifies this
      ensures Abs() == VisitAll(env, proj, src, old(Abs()), WalkEntries(env, src, src.rootPath.value, at, entries))
      decreases entries, 0
    {
      if entries != [] {
        var root := src.rootPath.value;
        VisitAllConcat(env, proj, src, Abs(), WalkNode(env, src, root, at + [entries[0].name], entries[0].node),
                       WalkEntries(env, src, root, at, entries[1..]));
        WalkDir(env, proj, src, at + [entries[0].name], entries[0].node);
        WalkAll(env, proj, src, at, entries[1..]);
      }
    }

    method OnFile(env: Env, proj: Project, src: Source, p: Path)
      requires src.IsTree() && src.rootPath.Some?
      modifies this
      ensures Abs() == Visit(env, proj, src, old(Abs()), p)
    {
      if !HasMdSuffix(p) {
        return;
      }
      var st := TypeOf(env, src);
      if !SiblingPresent(env, st, p) {
        return;
      }
      var relToSource := Rel(src.rootPath.value, p);
      var relToProject := Rel(proj.path, p);
      if !src.IsAllMarkdown() && relToProject in seen {
        return;  // already claimed by an earlier source
      }
      var fileType := Classify(st, relToSource);
      if fileType == "" {
        return;
      }
      var kind := KindAt(env.root, p);
      if !kind.Regular? {
        return;
      }
      if !src.IsAllMarkdown() {
        seen := seen + {relToProject};
      }
      files := files + [Info(proj, src, p, relToSource, kind.title, kind.modTime, fileType)];
    }

    method ListFiles(env: Env, proj: Project, src: Source)
      requires src.kind == "files"
      modifies this
      ensures Abs() == VisitAll(env, proj, src, old(Abs()), src.files)
    {
      for i := 0 to |src.files|
        invariant Abs() == VisitAll(env, proj, src, old(Abs()), src.files[..i])
      {
        VisitNext(env, proj, src, old(Abs()), src.files, i);
        OnListed(env, proj, src, src.files[i]);
      }
      assert src.files[..|src.files|] == src.files;
    }

    method OnListed(env: Env, proj: Project, src: Source, p: Path)
      requires src.kind == "files"
      modifies this
      ensures Abs() == Visit(env, proj, src, old(Abs()), p)
    {
      var kind := KindAt(env.root, p);
      var relToProject := Rel(proj.path, p);
      if kind.Regular? && HasMdSuffix(p) && relToProject !in seen {
        seen := seen + {relToProject};
        files := files + [Info(proj, src, p, [Base(p)], "", kind.modTime, TypeByWord([ToLower(Base(p))]))];
      }
    }
  }

  lemma VisitNext(env: Env, proj: Project, src: Source, f: Found, paths: seq<Path>, i: nat)
    requires i < |paths|
    ensures VisitAll(env, proj, src, f, paths[..i + 1]) ==
            Visit(env, proj, src, VisitAll(env, proj, src, f, paths[..i]), paths[i])
  {
    assert paths[..i + 1] == paths[..i] + [paths[i]];
    VisitAllConcat(env, proj, src, f, paths[..i], [paths[i]]);
    assert [paths[i]][1..] == [];
  }

  method ScanProjectSources(env: Env, proj: Project) returns (files: seq<FileInfo>)
    ensures multiset(files) == multiset(ScanSources(env, proj, proj.sources).files)
    ensures SortedBy(files, (f: FileInfo) => -f.modTime)
  {
    var scanner := new Scanner();
    for i := 0 to |proj.sources|
      invariant scanner.Abs() == ScanSources(env, proj, proj.sources[..i])
      invariant fresh(scanner)
    {
      var src := proj.sources[i];
      assert proj.sources[..i + 1][..i] == proj.sources[..i];
      if src.IsTree() {
        if src.rootPath.Some? {
          var root := Lookup(env.root, src.rootPath.value);
          if root.Some? {
            scanner.WalkDir(env, proj, src, src.rootPath.value, root.value);
          }
        }
      } else if src.kind == "files" {
        scanner.ListFiles(env, proj, src);
      }
    }
    assert proj.sources[..|proj.sources|] == proj.sources;
    files := Sort(scanner.files, (f: FileInfo) => -f.modTime);
  }
}
