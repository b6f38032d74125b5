/** What the full walk says about one file: which sources claim it, and with what entries. */
module ScanClaims {
  import opened Collections
  import opened FileTree
  import opened SourceRules
  import opened SourceScan

  /** The cached entries for one project-relative path, in order. */
  function At(files: seq<FileInfo>, full: Path): seq<FileInfo> {
    if files == [] then [] else
      var last := files[|files| - 1];
      At(files[..|files| - 1], full) + if last.fullPath == full then [last] else []
  }

  /** The part of the scan's state that concerns one file. */
  datatype Claim = Claim(entries: seq<FileInfo>, taken: bool)

  ghost function View(f: Found, full: Path): Claim {
    Claim(At(f.files, full), full in f.seen)
  }

  function AddClaim(c: Claim, e: Option<FileInfo>, exclusive: bool): Claim {
    match e
    case None => c
    case Some(e) => Claim(c.entries + [e], c.taken || exclusive)
  }

  /** One source's say about a file it offers. */
  function ClaimFrom(env: Env, proj: Project, src: Source, c: Claim, p: Path): Claim {
    if src.IsTree() then
      if src.rootPath == None || (!src.IsAllMarkdown() && c.taken) then c
      else AddClaim(c, TreeEntry(env, proj, src, p), !src.IsAllMarkdown())
    else if c.taken then c
    else AddClaim(c, ListedEntry(env, proj, src, p, false), true)
  }

  /** `root` is the way down to `p`, a regular file, and no directory on the way is pruned. */
  ghost predicate WalkReaches(env: Env, src: Source, p: Path) {
    && src.rootPath.Some?
    && src.rootPath.value <= p
    && IsFile(env.root, p)
    && forall k :: |src.rootPath.value| <= k < |p| ==> !Prunes(env, src, src.rootPath.value, p[..k])
  }

  ghost predicate Offers(env: Env, src: Source, p: Path) {
    if src.IsTree() then WalkReaches(env, src, p) else src.kind == "files" && p in src.files
  }

  /** The claims on `p`, one source after the other, without any walking. */
  ghost function Claims(env: Env, proj: Project, sources: seq<Source>, p: Path): Claim {
    if sources == [] then Claim([], false) else
      var c := Claims(env, proj, sources[..|sources| - 1], p);
      var last := sources[|sources| - 1];
      if Offers(env, last, p) then ClaimFrom(env, proj, last, c, p) else c
  }

  // ---------------------------------------------------------------------------------------
  // A walk reaches exactly the files no pruned directory hides, each once

  ghost predicate OpenBelow(env: Env, src: Source, root: Path, from: nat, p: Path)
    requires from <= |p|
  {
    forall k :: from <= k < |p| ==> !Prunes(env, src, root, p[..k])
  }

  ghost predicate ReachedFrom(env: Env, src: Source, root: Path, at: Path, n: Node, p: Path) {
    at <= p && IsFile(n, p[|at|..]) && OpenBelow(env, src, root, |at|, p)
  }

  lemma {:induction false} WalkNodeExact(env: Env, src: Source, root: Path, at: Path, n: Node)
    requires WellFormed(n)
    ensures forall p :: p in WalkNode(env, src, root, at, n) <==> ReachedFrom(env, src, root, at, n, p)
    ensures Distinct(WalkNode(env, src, root, at, n))
    decreases n, 0
  {
    match n
    case File(_, _) =>
      forall p ensures p in [at] <==> ReachedFrom(env, src, root, at, n, p) {
        if at <= p {
          assert p == at + p[|at|..];
          assert p == at ==> p[|at|..] == [];
        }
      }
    case Dir(_, entries) =>
      if !Prunes(env, src, root, at) {
        WalkEntriesExact(env, src, root, at, entries);
      }
      forall p ensures p in WalkNode(env, src, root, at, n) <==> ReachedFrom(env, src, root, at, n, p) {
        if at <= p {
          assert p[..|at|] == at;
          StepDown(env, src, root, at, n, p);
        }
      }
  }

  /** From a directory, the walk goes on into the entry that the path names. */
  ghost predicate ReachedThrough(env: Env, src: Source, root: Path, at: Path, entries: seq<Entry>, p: Path) {
    && at <= p && |at| < |p|
    && var child := FindEntry(entries, p[|at|]);
       child.Some? && ReachedFrom(env, src, root, at + [p[|at|]], child.value, p)
  }

  lemma StepDown(env: Env, src: Source, root: Path, at: Path, n: Node, p: Path)
    requires n.Dir? && at <= p
    ensures ReachedFrom(env, src, root, at, n, p) <==>
            !Prunes(env, src, root, at) && ReachedThrough(env, src, root, at, n.entries, p)
  {
    assert p[..|at|] == at;
    if |at| < |p| {
      var rest := p[|at|..];
      assert rest[0] == p[|at|] && rest[1..] == p[|at + [p[|at|]]|..];
      assert at + [p[|at|]] == p[..|at| + 1];
    }
  }

  /** A path leads through the first entry or through the others, never through both. */
  lemma ThroughFirst(env: Env, src: Source, root: Path, at: Path, entries: seq<Entry>, p: Path)
    requires WellFormedEntries(entries) && entries != []
    ensures var inFirst := ReachedFrom(env, src, root, at + [entries[0].name], entries[0].node, p);
      var inRest := ReachedThrough(env, src, root, at, entries[1..], p);
      && (ReachedThrough(env, src, root, at, entries, p) <==> inFirst || inRest)
      && !(inFirst && inRest)
  {
    var name := entries[0].name;
    if at + [name] <= p {
      assert p[..|at| + 1] == at + [name];
      assert p[..|at|] == at;
    }
  }

  lemma {:induction false} WalkEntriesExact(env: Env, src: Source, root: Path, at: Path, entries: seq<Entry>)
    requires WellFormedEntries(entries)
    ensures forall p :: p in WalkEntries(env, src, root, at, entries) <==>
      ReachedThrough(env, src, root, at, entries, p)
    ensures Distinct(WalkEntries(env, src, root, at, entries))
    decreases entries, 0
  {
    if entries == [] {
    } else {
      var e := entries[0];
      var first := WalkNode(env, src, root, at + [e.name], e.node);
      var rest := WalkEntries(env, src, root, at, entries[1..]);
      WalkNodeExact(env, src, root, at + [e.name], e.node);
      WalkEntriesExact(env, src, root, at, entries[1..]);
      forall p ensures p in first + rest <==> ReachedThrough(env, src, root, at, entries, p) {
        ThroughFirst(env, src, root, at, entries, p);
      }
      forall p | p in first ensures p !in rest {
        ThroughFirst(env, src, root, at, entries, p);
      }
      DistinctConcat(first, rest);
    }
  }

  /** What a source offers, said without the walk. */
  lemma OffersExact(env: Env, src: Source, p: Path)
    requires WellFormed(env.root)
    ensures p in Offered(env, src) <==> Offers(env, src, p)
    ensures src.IsTree() ==> Distinct(Offered(env, src))
  {
    if src.IsTree() && src.rootPath.Some? {
      var root := src.rootPath.value;
      if root <= p { assert p == root + p[|root|..]; }
      match Lookup(env.root, root) {
        case None =>
          if root <= p { LookupPrefix(env.root, root, p[|root|..]); }
        case Some(n) =>
          LookupWellFormed(env.root, root);
          WalkNodeExact(env, src, root, root, n);
          if root <= p { LookupCompose(env.root, root, p[|root|..]); }
      }
    }
  }

  lemma {:induction false} LookupWellFormed(n: Node, p: Path)
    requires WellFormed(n) && Lookup(n, p).Some?
    ensures WellFormed(Lookup(n, p).value)
    decreases p
  {
    if p == [] {
    } else {
      FoundEntryIsWellFormed(n.entries, p[0]);
      LookupWellFormed(FindEntry(n.entries, p[0]).value, p[1..]);
    }
  }

  lemma {:induction false} LookupPrefix(n: Node, p: Path, q: Path)
    requires Lookup(n, p) == None
    ensures Lookup(n, p + q) == None
    decreases p
  {
    assert p + q != [] && (p + q)[0] == p[0] && (p + q)[1..] == p[1..] + q;
    if n.Dir? && FindEntry(n.entries, p[0]).Some? {
      LookupPrefix(FindEntry(n.entries, p[0]).value, p[1..], q);
    }
  }

  // ---------------------------------------------------------------------------------------
  // The scan, seen from one file

  lemma AtConcat(a: seq<FileInfo>, e: FileInfo, full: Path)
    ensures At(a + [e], full) == At(a, full) + if e.fullPath == full then [e] else []
  {
    assert (a + [e])[..|a|] == a;
  }

  ghost function VisitEntry(env: Env, proj: Project, src: Source, p: Path): Option<FileInfo> {
    if src.IsTree() then (if src.rootPath.Some? then TreeEntry(env, proj, src, p) else None)
    else ListedEntry(env, proj, src, p, false)
  }

  /** Visiting `q` changes the view of the file at `p` as `ClaimFrom` says if `q` is `p`, else not at all. */
  lemma VisitView(env: Env, proj: Project, src: Source, f: Found, q: Path, p: Path)
    requires WellFormed(env.root) && Clean(p)
    ensures View(Visit(env, proj, src, f, q), Rel(proj.path, p)) ==
            var c := View(f, Rel(proj.path, p)); if q == p then ClaimFrom(env, proj, src, c, p) else c
  {
    var full := Rel(proj.path, p);
    var entry := VisitEntry(env, proj, src, q);
    if entry.Some? {
      AtConcat(f.files, entry.value, full);
      ExistingPathIsClean(env.root, q);
      if q != p && Rel(proj.path, q) == full { RelInjective(proj.path, p, q); }
    }
  }

  lemma {:induction false} VisitAllView(env: Env, proj: Project, src: Source, f: Found, paths: seq<Path>, p: Path)
    requires WellFormed(env.root) && Clean(p)
    requires src.IsTree() ==> Distinct(paths)
    ensures View(VisitAll(env, proj, src, f, paths), Rel(proj.path, p)) ==
            var c := View(f, Rel(proj.path, p)); if p in paths then ClaimFrom(env, proj, src, c, p) else c
    decreases paths
  {
    if paths == [] {
    } else {
      var rest := paths[1..];
      assert paths == [paths[0]] + rest;
      var g := Visit(env, proj, src, f, paths[0]);
      VisitView(env, proj, src, f, paths[0], p);
      VisitAllView(env, proj, src, g, rest, p);
      assert src.IsTree() && paths[0] == p ==> p !in rest;
    }
  }

  /** The scan's entries for a file are those its sources claim, decided without walking. */
  lemma {:induction false} ScanView(env: Env, proj: Project, sources: seq<Source>, p: Path)
    requires WellFormed(env.root) && Clean(p)
    ensures View(ScanSources(env, proj, sources), Rel(proj.path, p)) == Claims(env, proj, sources, p)
    decreases sources
  {
    if sources == [] {
    } else {
      var init, last := sources[..|sources| - 1], sources[|sources| - 1];
      ScanView(env, proj, init, p);
      OffersExact(env, last, p);
      VisitAllView(env, proj, last, ScanSources(env, proj, init), Offered(env, last), p);
    }
  }

  ghost predicate SomeFileAt(env: Env, proj: Project, full: Path) {
    exists p :: full == Rel(proj.path, p) && IsFile(env.root, p)
  }

  lemma VisitPath(env: Env, proj: Project, src: Source, f: Found, p: Path, full: Path)
    requires At(Visit(env, proj, src, f, p).files, full) != []
    ensures At(f.files, full) != [] || SomeFileAt(env, proj, full)
  {
    var entry := VisitEntry(env, proj, src, p);
    if entry.Some? {
      AtConcat(f.files, entry.value, full);
      assert entry.value.fullPath == Rel(proj.path, p) && IsFile(env.root, p);
    }
  }

  /** Every entry of a scan is for some existing file. */
  lemma {:induction false} VisitAllPaths(env: Env, proj: Project, src: Source, f: Found, paths: seq<Path>, full: Path)
    requires At(VisitAll(env, proj, src, f, paths).files, full) != []
    ensures At(f.files, full) != [] || SomeFileAt(env, proj, full)
    decreases paths
  {
    if paths == [] {
    } else {
      VisitAllPaths(env, proj, src, Visit(env, proj, src, f, paths[0]), paths[1..], full);
      if !SomeFileAt(env, proj, full) { VisitPath(env, proj, src, f, paths[0], full); }
    }
  }

  lemma {:induction false} ScannedPathsExist(env: Env, proj: Project, sources: seq<Source>, full: Path)
    requires At(ScanSources(env, proj, sources).files, full) != []
    ensures exists p :: full == Rel(proj.path, p) && IsFile(env.root, p)
    decreases sources
  {
    var init, last := sources[..|sources| - 1], sources[|sources| - 1];
    VisitAllPaths(env, proj, last, ScanSources(env, proj, init), Offered(env, last), full);
    if At(ScanSources(env, proj, init).files, full) != [] {
      ScannedPathsExist(env, proj, init, full);
    }
  }
}
