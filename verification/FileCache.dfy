/** The cached file list of a project and its incremental updates, apps/penpal/internal/cache/cache.go. */
module FileLists {
  import opened Collections
  import opened FileTree
  import opened SourceRules
  import opened ScanClaims
  import opened ResolveFile

  lemma {:induction false} AtMultiplicity(s: seq<FileInfo>, full: Path, x: FileInfo)
    ensures multiset(At(s, full))[x] == if x.fullPath == full then multiset(s)[x] else 0
  {
    if s == [] {
    } else {
      var init, last := s[..|s| - 1], s[|s| - 1];
      assert s == init + [last];
      AtMultiplicity(init, full, x);
    }
  }

  /** Two lists that are permutations of each other path by path are permutations of each other. */
  lemma PathByPath(a: seq<FileInfo>, b: seq<FileInfo>)
    requires forall full :: multiset(At(a, full)) == multiset(At(b, full))
    ensures multiset(a) == multiset(b)
  {
    forall x: FileInfo ensures multiset(a)[x] == multiset(b)[x] {
      AtMultiplicity(a, x.fullPath, x);
      AtMultiplicity(b, x.fullPath, x);
    }
  }

  lemma PermutedAt(a: seq<FileInfo>, b: seq<FileInfo>, full: Path)
    requires multiset(a) == multiset(b)
    ensures multiset(At(a, full)) == multiset(At(b, full))
  {
    forall x ensures multiset(At(a, full))[x] == multiset(At(b, full))[x] {
      AtMultiplicity(a, full, x);
      AtMultiplicity(b, full, x);
    }
  }

  lemma {:induction false} AtAppend(a: seq<FileInfo>, b: seq<FileInfo>, full: Path)
    ensures At(a + b, full) == At(a, full) + At(b, full)
    decreases b
  {
    if b == [] {
      assert a + b == a;
    } else {
      var init, last := b[..|b| - 1], b[|b| - 1];
      assert (a + b)[..|a + b| - 1] == a + init;
      AtAppend(a, init, full);
    }
  }

  /** `filterManualFileInfos`: entries of sources of type "manual" are dropped, by source name. */
  function ManualNames(proj: Project): set<string> {
    set s | s in proj.sources && s.sourceTypeName == "manual" :: s.name
  }

  function WithoutManual(proj: Project, s: seq<FileInfo>): seq<FileInfo> {
    if s == [] then [] else
      var last := s[|s| - 1];
      WithoutManual(proj, s[..|s| - 1]) + if last.source in ManualNames(proj) then [] else [last]
  }

  method FilterManualFileInfos(proj: Project, files: seq<FileInfo>) returns (filtered: seq<FileInfo>)
    ensures filtered == WithoutManual(proj, files)
  {
    var manual := ManualNames(proj);
    if |manual| == 0 {
      NothingManual(proj, files);
      return files;
    }
    filtered := [];
    for i := 0 to |files|
      invariant filtered == WithoutManual(proj, files[..i])
    {
      assert files[..i + 1][..i] == files[..i];
      if files[i].source !in manual {
        filtered := filtered + [files[i]];
      }
    }
    assert files[..|files|] == files;
  }

  lemma {:induction false} NothingManual(proj: Project, s: seq<FileInfo>)
    requires ManualNames(proj) == {}
    ensures WithoutManual(proj, s) == s
  {
    if s == [] {
    } else {
      NothingManual(proj, s[..|s| - 1]);
      assert s == s[..|s| - 1] + [s[|s| - 1]];
    }
  }

  /** Re-stats every entry for one path. */
  function Touched(s: seq<FileInfo>, full: Path, modTime: int, title: string): seq<FileInfo> {
    seq(|s|, i requires 0 <= i < |s| =>
      if s[i].fullPath == full then s[i].(modTime := modTime, title := title) else s[i])
  }

  function Removed(s: seq<FileInfo>, full: Path): seq<FileInfo> {
    if s == [] then [] else
      var last := s[|s| - 1];
      Removed(s[..|s| - 1], full) + if last.fullPath == full then [] else [last]
  }

  lemma {:induction false} AtScanForms(s: seq<FileInfo>, full: Path)
    ensures At(ScanForms(s), full) == ScanForms(At(s, full))
  {
    if s == [] {
    } else {
      var init, last := s[..|s| - 1], s[|s| - 1];
      AtScanForms(init, full);
      assert ScanForms(s)[..|s| - 1] == ScanForms(init);
      if last.fullPath == full { assert At(s, full)[..|At(s, full)| - 1] == At(init, full); }
    }
  }

  lemma {:induction false} AtWithoutManual(proj: Project, s: seq<FileInfo>, full: Path)
    ensures At(WithoutManual(proj, s), full) == WithoutManual(proj, At(s, full))
  {
    if s == [] {
    } else {
      var init, last := s[..|s| - 1], s[|s| - 1];
      AtWithoutManual(proj, init, full);
      var kept := WithoutManual(proj, init);
      assert kept + [] == kept;
      AtConcat(kept, last, full);
      assert At(kept, full) + [] == At(kept, full) && At(init, full) + [] == At(init, full);
      if last.fullPath == full { assert At(s, full)[..|At(s, full)| - 1] == At(init, full); }
    }
  }

  lemma {:induction false} ManualScanForms(proj: Project, s: seq<FileInfo>)
    ensures WithoutManual(proj, ScanForms(s)) == ScanForms(WithoutManual(proj, s))
  {
    if s == [] {
    } else {
      var init, last := s[..|s| - 1], s[|s| - 1];
      ManualScanForms(proj, init);
      assert ScanForms(s)[..|s| - 1] == ScanForms(init);
      var kept := WithoutManual(proj, init);
      if last.source !in ManualNames(proj) { assert (kept + [last])[..|kept|] == kept; }
    }
  }

  lemma {:induction false} AtTouched(s: seq<FileInfo>, full: Path, modTime: int, title: string, other: Path)
    ensures At(Touched(s, full, modTime, title), other) ==
            if other == full then Touched(At(s, full), full, modTime, title) else At(s, other)
  {
    if s == [] {
    } else {
      var init, last := s[..|s| - 1], s[|s| - 1];
      AtTouched(init, full, modTime, title, other);
      assert Touched(s, full, modTime, title)[..|s| - 1] == Touched(init, full, modTime, title);
    }
  }

  lemma {:induction false} AtRemoved(s: seq<FileInfo>, full: Path, other: Path)
    ensures At(Removed(s, full), other) == if other == full then [] else At(s, other)
  {
    if s == [] {
    } else {
      var init, last := s[..|s| - 1], s[|s| - 1];
      AtRemoved(init, full, other);
      var kept := Removed(init, full);
      assert kept + [] == kept;
      AtConcat(kept, last, other);
      assert At(init, other) + [] == At(init, other);
    }
  }

  lemma {:induction false} NothingToRemove(s: seq<FileInfo>, full: Path)
    requires At(s, full) == []
    ensures Removed(s, full) == s
  {
    if s == [] {
    } else {
      var init, last := s[..|s| - 1], s[|s| - 1];
      assert At(s, full) == At(init, full) + if last.fullPath == full then [last] else [];
      assert At(init, full) == [] && last.fullPath != full;
      NothingToRemove(init, full);
      assert s == init + [last];
    }
  }

  lemma {:induction false} AtPaths(s: seq<FileInfo>, full: Path)
    ensures At(s, full) == [] <==> forall i :: 0 <= i < |s| ==> s[i].fullPath != full
    ensures forall i :: 0 <= i < |At(s, full)| ==> At(s, full)[i].fullPath == full
  {
    if s == [] {
    } else {
      var init := s[..|s| - 1];
      AtPaths(init, full);
      assert forall i :: 0 <= i < |init| ==> init[i] == s[i];
    }
  }
}

module FileCache {
  import opened Collections
  import opened FileTree
  import opened SourceRules
  import opened SourceScan
  import opened ScanClaims
  import opened ResolveFile
  import opened FileLists

  datatype ProjectMeta = ProjectMeta(name: string, hasFiles: bool, lastModified: int)

  /** `os.Stat` and `extractTitle`. */
  function Stat(n: Node, p: Path): Option<(int, string)> {
    match Lookup(n, p)
    case None => None
    case Some(File(m, t)) => Some((m, t))
    case Some(Dir(m, _)) => Some((m, ""))
  }

  /** The first project of that name gets the new flags; an empty list leaves its time alone. */
  function MetaAfter(ms: seq<ProjectMeta>, name: string, files: seq<FileInfo>): seq<ProjectMeta> {
    if ms == [] then []
    else if ms[0].name == name then [MetaOf(ms[0], files)] + ms[1..]
    else [ms[0]] + MetaAfter(ms[1..], name, files)
  }

  function MetaOf(m: ProjectMeta, files: seq<FileInfo>): ProjectMeta {
    ProjectMeta(m.name, files != [], if files != [] then files[0].modTime else m.lastModified)
  }

  ghost predicate NewestFirst(files: seq<FileInfo>) {
    SortedBy(files, (f: FileInfo) => -f.modTime)
  }

  /** What `UpsertFile` makes of a project's list. */
  ghost predicate Upserted(before: seq<FileInfo>, after: seq<FileInfo>, env: Env, proj: Project, p: Path, ok: bool) {
    var full := Rel(proj.path, p);
    var kept := WithoutManual(proj, Resolved(env, proj, p));
    match Stat(env.root, p)
    case None => !ok && after == before
    case Some((m, t)) =>
      if At(before, full) != [] then
        ok && multiset(after) == multiset(Touched(before, full, m, t)) && NewestFirst(after)
      else if kept == [] then !ok && after == before
      else ok && multiset(after) == multiset(before + kept) && NewestFirst(after)
  }

  class Cache {
    var projectFiles: map<string, seq<FileInfo>>
    var projects: seq<ProjectMeta>

    ghost function Files(name: string): seq<FileInfo>
      reads this
    {
      if name in projectFiles then projectFiles[name] else []
    }

    method UpdateProjectMetadata(name: string, files: seq<FileInfo>)
      modifies this`projects
      ensures projects == MetaAfter(old(projects), name, files)
    {
      ghost var was := projects;
      var i := 0;
      while i < |projects|
        invariant 0 <= i <= |projects| && projects == was
        invariant MetaAfter(was, name, files) == was[..i] + MetaAfter(was[i..], name, files)
      {
        if projects[i].name == name {
          projects := projects[i := MetaOf(projects[i], files)];
          return;
        }
        i := i + 1;
      }
    }

    method RefreshProject(name: string, env: Env, proj: Project)
      modifies this
      ensures projectFiles.Keys == old(projectFiles).Keys + {name}
      ensures forall n :: n in old(projectFiles) && n != name ==> projectFiles[n] == old(projectFiles)[n]
      ensures multiset(Files(name)) == multiset(FreshScan(env, proj)) && NewestFirst(Files(name))
      ensures projects == MetaAfter(old(projects), name, Files(name))
    {
      var scanned := ScanProjectSources(env, proj);
      var files := FilterManualFileInfos(proj, scanned);
      FilterPermuted(proj, scanned, ScanSources(env, proj, proj.sources).files);
      FilterKeepsOrder(proj, scanned);
      projectFiles := projectFiles[name := files];
      UpdateProjectMetadata(name, files);
    }

    method UpsertFile(name: string, env: Env, proj: Project, p: Path) returns (ok: bool)
      modifies this
      ensures Upserted(old(Files(name)), Files(name), env, proj, p, ok)
      ensures !ok ==> projectFiles == old(projectFiles) && projects == old(projects)
      ensures ok ==> projectFiles == old(projectFiles)[name := Files(name)]
      ensures ok ==> projects == MetaAfter(old(projects), name, Files(name))
    {
      var relToProject := Rel(proj.path, p);
      var stat := Stat(env.root, p);
      if stat == None {
        return false;
      }
      var (modTime, title) := stat.value;
      var found := ResolveFileInfo(env, proj, p);
      var resolved := FilterManualFileInfos(proj, found);
      var files := if name in projectFiles then projectFiles[name] else [];
      var touched, updated := TouchEntries(files, relToProject, modTime, title);
      if !updated && |resolved| == 0 {
        return false;
      }
      files := if updated then touched else files + resolved;
      files := Sort(files, (f: FileInfo) => -f.modTime);
      projectFiles := projectFiles[name := files];
      UpdateProjectMetadata(name, files);
      return true;
    }

    /** Compacts the list in place. */
    method RemoveFile(name: string, fullPath: Path) returns (ok: bool)
      modifies this
      ensures ok <==> At(old(Files(name)), fullPath) != []
      ensures Files(name) == Removed(old(Files(name)), fullPath)
      ensures !ok ==> projectFiles == old(projectFiles) && projects == old(projects)
      ensures ok ==> projectFiles == old(projectFiles)[name := Files(name)]
      ensures ok ==> projects == MetaAfter(old(projects), name, Files(name))
    {
      if name !in projectFiles {
        return false;
      }
      var files, n := Compact(projectFiles[name], fullPath);
      if n == |files| {
        NothingToRemove(projectFiles[name], fullPath);
        return false;
      }
      files := files[..n];
      projectFiles := projectFiles[name := files];
      UpdateProjectMetadata(name, files);
      return true;
    }
  }

  /** The first loop of `UpsertFile`: re-stats the entries that are already cached. */
  method TouchEntries(was: seq<FileInfo>, full: Path, modTime: int, title: string)
    returns (files: seq<FileInfo>, updated: bool)
    ensures files == Touched(was, full, modTime, title)
    ensures updated <==> At(was, full) != []
  {
    AtPaths(was, full);
    files, updated := was, false;
    for i := 0 to |was|
      invariant |files| == |was|
      invariant forall k :: 0 <= k < i ==> files[k] == Touched(was, full, modTime, title)[k]
      invariant forall k :: i <= k < |was| ==> files[k] == was[k]
      invariant updated <==> exists k :: 0 <= k < i && was[k].fullPath == full
    {
      if files[i].fullPath == full {
        files := files[i := files[i].(modTime := modTime, title := title)];
        updated := true;
      }
    }
  }

  lemma RemovedNext(was: seq<FileInfo>, i: nat, full: Path)
    requires i < |was|
    ensures Removed(was[..i + 1], full) ==
      if was[i].fullPath != full then Removed(was[..i], full) + [was[i]] else Removed(was[..i], full)
  {
    assert was[..i + 1][..i] == was[..i];
    assert Removed(was[..i], full) + [] == Removed(was[..i], full);
  }

  lemma KeptInFront(files: seq<FileInfo>, n: nat, f: FileInfo)
    requires n < |files|
    ensures files[n := f][..n + 1] == files[..n] + [f]
  {
  }

  /** The loop of `RemoveFile`: moves the kept entries to the front, in place. */
  method Compact(was: seq<FileInfo>, full: Path) returns (files: seq<FileInfo>, n: nat)
    ensures n <= |files| && files[..n] == Removed(was, full)
    ensures n == |files| <==> At(was, full) == []
  {
    files, n := was, 0;
    for i := 0 to |was|
      invariant 0 <= n <= i && |files| == |was|
      invariant files[..n] == Removed(was[..i], full)
      invariant forall k :: i <= k < |was| ==> files[k] == was[k]
      invariant n == i <==> forall k :: 0 <= k < i ==> was[k].fullPath != full
    {
      var f := files[i];
      RemovedNext(was, i, full);
      if f.fullPath != full {
        KeptInFront(files, n, f);
        files := files[n := f];
        n := n + 1;
      }
    }
    AtPaths(was, full);
    assert was[..|was|] == was;
  }

  /** A full rescan, before sorting. */
  ghost function FreshScan(env: Env, proj: Project): seq<FileInfo> {
    WithoutManual(proj, ScanSources(env, proj, proj.sources).files)
  }

  lemma {:induction false} KeptMultiplicity(proj: Project, s: seq<FileInfo>, x: FileInfo)
    ensures multiset(WithoutManual(proj, s))[x] == if x.source in ManualNames(proj) then 0 else multiset(s)[x]
  {
    if s == [] {
    } else {
      var init := s[..|s| - 1];
      assert s == init + [s[|s| - 1]];
      KeptMultiplicity(proj, init, x);
    }
  }

  lemma FilterPermuted(proj: Project, a: seq<FileInfo>, b: seq<FileInfo>)
    requires multiset(a) == multiset(b)
    ensures multiset(WithoutManual(proj, a)) == multiset(WithoutManual(proj, b))
  {
    forall x ensures multiset(WithoutManual(proj, a))[x] == multiset(WithoutManual(proj, b))[x] {
      KeptMultiplicity(proj, a, x);
      KeptMultiplicity(proj, b, x);
    }
  }

  lemma {:induction false} FilterKeepsOrder(proj: Project, s: seq<FileInfo>)
    requires NewestFirst(s)
    ensures NewestFirst(WithoutManual(proj, s))
    ensures forall x :: x in WithoutManual(proj, s) ==> x in s
  {
    if s == [] {
    } else {
      var init, last := s[..|s| - 1], s[|s| - 1];
      var key := (f: FileInfo) => -f.modTime;
      assert forall i, j :: 0 <= i < j < |init| ==> key(init[i]) <= key(init[j]);
      FilterKeepsOrder(proj, init);
      forall x | x in init ensures key(x) <= key(last) {
        var i :| 0 <= i < |init| && init[i] == x;
        assert key(s[i]) <= key(s[|s| - 1]);
      }
    }
  }
}
