/** `ResolveFileInfo`: the claims on one file without a walk, and when they are the walk's. */
module ResolveFile {
  import opened Collections
  import opened FileTree
  import opened SourceRules
  import opened SourceScan
  import opened ScanClaims

  /** `hasSkippedDir`: a directory strictly between source root and file has a skipped name. */
  ghost predicate SkippedBetween(env: Env, src: Source, root: Path, p: Path) {
    exists k :: |root| < k < |p| && Skips(TypeOf(env, src), Base(p[..k]))
  }

  ghost predicate NestedBetween(env: Env, root: Path, p: Path) {
    exists k :: |root| < k < |p| && NestedRepo(env, p[..k])
  }

  ghost predicate IgnoredBetween(env: Env, root: Path, p: Path) {
    exists k :: |root| < k < |p| && env.ignored(p[..k])
  }

  /** The checks on the way from the source root to the file. */
  ghost predicate Accepts(env: Env, src: Source, p: Path) {
    && src.rootPath.Some?
    && src.rootPath.value <= p
    && !NestedBetween(env, src.rootPath.value, p)
    && !IgnoredBetween(env, src.rootPath.value, p)
    && !SkippedBetween(env, src, src.rootPath.value, p)
  }

  /** The entry a source makes for the file if no earlier source stands in its way. */
  ghost function SourceEntry(env: Env, proj: Project, src: Source, p: Path): Option<FileInfo> {
    if src.IsTree() then (if Accepts(env, src, p) then TreeEntry(env, proj, src, p) else None)
    else if src.kind == "files" && p in src.files then ListedEntry(env, proj, src, p, true)
    else None
  }

  /** One source's turn in the loop. */
  ghost function ResolveStep(env: Env, proj: Project, src: Source, c: Claim, p: Path): Claim {
    if !src.IsAllMarkdown() && c.taken then c
    else AddClaim(c, SourceEntry(env, proj, src, p), !src.IsAllMarkdown())
  }

  ghost function ResolveClaims(env: Env, proj: Project, sources: seq<Source>, p: Path): Claim {
    if sources == [] then Claim([], false) else
      ResolveStep(env, proj, sources[|sources| - 1],
                  ResolveClaims(env, proj, sources[..|sources| - 1], p), p)
  }

  ghost function Resolved(env: Env, proj: Project, p: Path): seq<FileInfo> {
    if HasMdSuffix(p) && IsFile(env.root, p) && !Escapes(Rel(proj.path, p))
    then ResolveClaims(env, proj, proj.sources, p).entries
    else []
  }

  // ---------------------------------------------------------------------------------------
  // The code

  method HasSkippedDir(relToSource: Path, st: Option<SourceType>) returns (r: bool)
    ensures r <==> exists k :: 0 <= k < |relToSource| - 1 && Skips(st, relToSource[k])
  {
    if st == None {
      return false;
    }
    var dir := Parent(relToSource);
    for k := 0 to |dir|
      invariant forall j :: 0 <= j < k ==> !Skips(st, relToSource[j])
    {
      if dir[k] in st.value.skipDirs {
        return true;
      }
    }
    return false;
  }

  method IsUnderNestedGitRepo(env: Env, p: Path, root: Path) returns (r: bool)
    requires root <= p
    ensures r <==> NestedBetween(env, root, p)
  {
    var dir := Parent(p);
    while dir != root && root <= dir
      invariant dir <= p
      invariant forall k :: |root| < k < |p| && |dir| < k ==> !NestedRepo(env, p[..k])
      decreases |dir|
    {
      assert dir == p[..|dir|];
      if NestedRepo(env, dir) {
        return true;
      }
      dir := Parent(dir);
    }
    return false;
  }

  method IsAncestorDirGitIgnored(env: Env, p: Path, root: Path) returns (r: bool)
    requires root <= p
    ensures r <==> IgnoredBetween(env, root, p)
  {
    var dir := Parent(p);
    while dir != root && root <= dir
      invariant dir <= p
      invariant forall k :: |root| < k < |p| && |dir| < k ==> !env.ignored(p[..k])
      decreases |dir|
    {
      assert dir == p[..|dir|];
      if env.ignored(dir) {
        return true;
      }
      dir := Parent(dir);
    }
    return false;
  }

  method AcceptedBy(env: Env, src: Source, p: Path) returns (r: bool)
    ensures r <==> Accepts(env, src, p)
  {
    if src.rootPath == None || !(src.rootPath.value <= p) {
      return false;
    }
    var root := src.rootPath.value;
    var nested := IsUnderNestedGitRepo(env, p, root);
    if nested {
      return false;
    }
    var ignored := IsAncestorDirGitIgnored(env, p, root);
    if ignored {
      return false;
    }
    RelBelow(root, p);
    var skipped := HasSkippedDir(Rel(root, p), TypeOf(env, src));
    SkippedByComponent(env, src, root, p);
    return !skipped;
  }

  lemma RelBelow(root: Path, p: Path)
    requires root <= p
    ensures Rel(root, p) == p[|root|..]
  {
    var c := CommonLength(root, p);
    assert forall i :: 0 <= i < |root| ==> root[i] == p[i];
  }

  lemma SkippedByComponent(env: Env, src: Source, root: Path, p: Path)
    requires root <= p
    ensures var rel := p[|root|..];
      SkippedBetween(env, src, root, p) <==> exists k :: 0 <= k < |rel| - 1 && Skips(TypeOf(env, src), rel[k])
  {
    var rel, st := p[|root|..], TypeOf(env, src);
    if SkippedBetween(env, src, root, p) {
      var k :| |root| < k < |p| && Skips(st, Base(p[..k]));
      assert Base(p[..k]) == rel[k - 1 - |root|];
    }
    if k :| 0 <= k < |rel| - 1 && Skips(st, rel[k]) {
      assert Base(p[..|root| + k + 1]) == rel[k];
    }
  }

  /** A source's checks and the entry it makes. */
  method EntryFrom(env: Env, proj: Project, src: Source, p: Path) returns (entry: Option<FileInfo>)
    ensures entry == SourceEntry(env, proj, src, p)
  {
    entry := None;
    if src.IsTree() {
      var accepted := AcceptedBy(env, src, p);
      if accepted {
        entry := TreeEntry(env, proj, src, p);
      }
    } else if src.kind == "files" && p in src.files {
      entry := ListedEntry(env, proj, src, p, true);
    }
  }

  /** The body of the loop; `c` holds the loop's two variables. */
  method ClaimBy(env: Env, proj: Project, src: Source, c: Claim, p: Path) returns (c': Claim)
    ensures c' == ResolveStep(env, proj, src, c, p)
  {
    c' := c;
    if src.IsAllMarkdown() || !c.taken {
      var entry := EntryFrom(env, proj, src, p);
      if entry.Some? {
        c' := Claim(c.entries + [entry.value], c.taken || !src.IsAllMarkdown());
      }
    }
  }

  lemma ClaimsNext(env: Env, proj: Project, sources: seq<Source>, i: nat, p: Path)
    requires i < |sources|
    ensures ResolveClaims(env, proj, sources[..i + 1], p) ==
            ResolveStep(env, proj, sources[i], ResolveClaims(env, proj, sources[..i], p), p)
  {
    assert sources[..i + 1][..i] == sources[..i];
  }

  method ResolveFileInfo(env: Env, proj: Project, p: Path) returns (results: seq<FileInfo>)
    ensures results == Resolved(env, proj, p)
  {
    if !HasMdSuffix(p) {
      return [];
    }
    var kind := KindAt(env.root, p);
    if !kind.Regular? {
      return [];
    }
    if Escapes(Rel(proj.path, p)) {
      return [];
    }
    var c := Claim([], false);
    for i := 0 to |proj.sources|
      invariant c == ResolveClaims(env, proj, proj.sources[..i], p)
    {
      ClaimsNext(env, proj, proj.sources, i, p);
      c := ClaimBy(env, proj, proj.sources[i], c, p);
    }
    results := c.entries;
    assert proj.sources[..|proj.sources|] == proj.sources;
  }

  // ---------------------------------------------------------------------------------------
  // Agreement with the walk

  /** The walk leaves titles of explicitly listed files empty, to be filled in on demand. */
  function ScanForm(e: FileInfo): FileInfo {
    if e.sourceType == "files" then e.(title := "") else e
  }

  function ScanForms(es: seq<FileInfo>): (r: seq<FileInfo>)
    ensures |r| == |es|
    ensures forall i :: 0 <= i < |es| ==> r[i] == ScanForm(es[i])
  {
    if es == [] then [] else ScanForms(es[..|es| - 1]) + [ScanForm(es[|es| - 1])]
  }

  /** What the shortcut does not check: `.git` directories, and a source root with a skipped name. */
  ghost predicate NotHidden(env: Env, src: Source, p: Path) {
    src.rootPath.Some? ==>
      var root := src.rootPath.value;
      && (forall k :: |root| <= k < |p| ==> Base(p[..k]) != ".git")
      && (|root| < |p| ==> !Skips(TypeOf(env, src), Base(root)))
  }

  /** A list of explicit files is never called `__all_markdown__`. */
  ghost predicate CatchAllIsTree(sources: seq<Source>) {
    forall i :: 0 <= i < |sources| && sources[i].IsAllMarkdown() ==> sources[i].IsTree()
  }

  /** Trees have distinct names; any number of lists may be called "files". */
  ghost predicate ProperSources(sources: seq<Source>) {
    && CatchAllIsTree(sources)
    && forall i, j :: 0 <= i < j < |sources| && sources[i].IsTree() && sources[j].IsTree() ==>
         sources[i].name != sources[j].name
  }

  /** Tree source `i` contributes an entry to the shortcut's answer. */
  ghost predicate Contributes(env: Env, proj: Project, sources: seq<Source>, i: nat, p: Path)
    requires i < |sources|
  {
    && sources[i].IsTree()
    && Accepts(env, sources[i], p)
    && TreeEntry(env, proj, sources[i], p).Some?
    && (sources[i].IsAllMarkdown() || !ResolveClaims(env, proj, sources[..i], p).taken)
  }

  /** Every source that contributes is one whose walk is not stopped on the way. */
  ghost predicate NoneHidden(env: Env, proj: Project, sources: seq<Source>, p: Path) {
    forall i :: 0 <= i < |sources| && Contributes(env, proj, sources, i, p) ==> NotHidden(env, sources[i], p)
  }

  lemma WalkReachesIff(env: Env, src: Source, p: Path)
    requires IsFile(env.root, p)
    ensures WalkReaches(env, src, p) <==> Accepts(env, src, p) && NotHidden(env, src, p)
  {
    if src.rootPath.Some? && src.rootPath.value <= p {
      var root := src.rootPath.value;
      assert p[..|root|] == root;
      assert forall k :: |root| < k < |p| ==> p[..k] != root;
      if |root| < |p| {
        assert Prunes(env, src, root, p[..|root|]) <==> Base(root) == ".git" || Skips(TypeOf(env, src), Base(root));
      }
      if Accepts(env, src, p) && NotHidden(env, src, p) {
        forall k | |root| <= k < |p| ensures !Prunes(env, src, root, p[..k]) {}
      }
    }
  }

  ghost predicate SameUpToTitles(c: Claim, d: Claim) {
    ScanForms(c.entries) == d.entries && c.taken == d.taken
  }

  lemma AddSame(c: Claim, d: Claim, e: Option<FileInfo>, f: Option<FileInfo>, exclusive: bool)
    requires SameUpToTitles(c, d)
    requires match e case None => f == None case Some(x) => f == Some(ScanForm(x))
    ensures SameUpToTitles(AddClaim(c, e, exclusive), AddClaim(d, f, exclusive))
  {
    if e.Some? {
      assert (c.entries + [e.value])[..|c.entries|] == c.entries;
    }
  }

  /** One source's turn in the shortcut and in the walk. */
  lemma StepSame(env: Env, proj: Project, src: Source, c: Claim, d: Claim, p: Path)
    requires IsFile(env.root, p) && SameUpToTitles(c, d)
    requires src.IsAllMarkdown() ==> src.IsTree()
    requires src.IsTree() && Accepts(env, src, p) && TreeEntry(env, proj, src, p).Some? ==>
      (src.IsAllMarkdown() || !c.taken ==> NotHidden(env, src, p))
    ensures SameUpToTitles(ResolveStep(env, proj, src, c, p),
                           if Offers(env, src, p) then ClaimFrom(env, proj, src, d, p) else d)
  {
    if src.IsTree() {
      WalkReachesIff(env, src, p);
      if src.rootPath.Some? {
        var e := TreeEntry(env, proj, src, p);
        AddSame(c, d, e, e, !src.IsAllMarkdown());
      }
    } else if src.kind == "files" {
      AddSame(c, d, ListedEntry(env, proj, src, p, true), ListedEntry(env, proj, src, p, false), true);
    }
  }

  lemma NoneHiddenBefore(env: Env, proj: Project, sources: seq<Source>, p: Path)
    requires sources != [] && NoneHidden(env, proj, sources, p)
    ensures NoneHidden(env, proj, sources[..|sources| - 1], p)
  {
    var init := sources[..|sources| - 1];
    forall i | 0 <= i < |init| && Contributes(env, proj, init, i, p) ensures NotHidden(env, init[i], p) {
      assert init[..i] == sources[..i];
      assert Contributes(env, proj, sources, i, p);
    }
  }

  lemma {:induction false} SameClaims(env: Env, proj: Project, sources: seq<Source>, p: Path)
    requires IsFile(env.root, p) && CatchAllIsTree(sources) && NoneHidden(env, proj, sources, p)
    ensures SameUpToTitles(ResolveClaims(env, proj, sources, p), Claims(env, proj, sources, p))
    decreases sources
  {
    if sources == [] {
    } else {
      var n := |sources| - 1;
      var init, last := sources[..n], sources[n];
      NoneHiddenBefore(env, proj, sources, p);
      SameClaims(env, proj, init, p);
      assert Contributes(env, proj, sources, n, p) ==> NotHidden(env, last, p);
      StepSame(env, proj, last, ResolveClaims(env, proj, init, p), Claims(env, proj, init, p), p);
    }
  }

  predicate MadeBy(e: FileInfo, src: Source) {
    e.source == src.name && e.sourceType == src.kind
  }

  lemma {:induction false} ClaimedByOfferers(env: Env, proj: Project, sources: seq<Source>, p: Path, e: FileInfo)
    requires e in Claims(env, proj, sources, p).entries
    ensures exists i :: 0 <= i < |sources| && MadeBy(e, sources[i]) && Offers(env, sources[i], p)
    decreases sources
  {
    var n := |sources| - 1;
    var init := sources[..n];
    if e in Claims(env, proj, init, p).entries {
      ClaimedByOfferers(env, proj, init, p, e);
      var i :| 0 <= i < |init| && MadeBy(e, init[i]) && Offers(env, init[i], p);
      assert sources[i] == init[i];
    } else {
      assert MadeBy(e, sources[n]);
    }
  }

  predicate FromTree(e: FileInfo, name: string) {
    e.source == name && e.sourceType != "files"
  }

  ghost predicate ListsTree(es: seq<FileInfo>, name: string) {
    exists k :: 0 <= k < |es| && FromTree(es[k], name)
  }

  lemma EntryStays(es: seq<FileInfo>, more: seq<FileInfo>, name: string)
    requires es <= more && ListsTree(es, name)
    ensures ListsTree(more, name)
  {
    var k :| 0 <= k < |es| && FromTree(es[k], name);
    assert more[k] == es[k];
  }

  lemma EntryAdded(env: Env, proj: Project, src: Source, c: Claim, p: Path)
    requires src.IsTree() && Accepts(env, src, p) && TreeEntry(env, proj, src, p).Some?
    requires src.IsAllMarkdown() || !c.taken
    ensures ListsTree(ResolveStep(env, proj, src, c, p).entries, src.name)
  {
    var e := TreeEntry(env, proj, src, p).value;
    assert ResolveStep(env, proj, src, c, p).entries == c.entries + [e];
    assert (c.entries + [e])[|c.entries|] == e && FromTree(e, src.name);
  }

  lemma StepKeepsEntries(env: Env, proj: Project, src: Source, c: Claim, p: Path)
    ensures c.entries <= ResolveStep(env, proj, src, c, p).entries
  {
  }

  lemma {:induction false} StaysListed(env: Env, proj: Project, sources: seq<Source>, i: nat, p: Path, name: string)
    requires i <= |sources| && ListsTree(ResolveClaims(env, proj, sources[..i], p).entries, name)
    ensures ListsTree(ResolveClaims(env, proj, sources, p).entries, name)
    decreases |sources| - i
  {
    if i == |sources| {
      assert sources[..i] == sources;
    } else {
      var c := ResolveClaims(env, proj, sources[..i], p);
      ClaimsNext(env, proj, sources, i, p);
      StepKeepsEntries(env, proj, sources[i], c, p);
      EntryStays(c.entries, ResolveStep(env, proj, sources[i], c, p).entries, name);
      StaysListed(env, proj, sources, i + 1, p, name);
    }
  }

  lemma ContributionStays(env: Env, proj: Project, sources: seq<Source>, i: nat, p: Path)
    requires i < |sources| && Contributes(env, proj, sources, i, p)
    ensures ListsTree(ResolveClaims(env, proj, sources, p).entries, sources[i].name)
  {
    EntryAdded(env, proj, sources[i], ResolveClaims(env, proj, sources[..i], p), p);
    ClaimsNext(env, proj, sources, i, p);
    StaysListed(env, proj, sources, i + 1, p, sources[i].name);
  }

  /** A source that does not offer the file to the walk is not among those that claim it. */
  lemma NotOfferedNotListed(env: Env, proj: Project, sources: seq<Source>, i: nat, p: Path)
    requires ProperSources(sources) && i < |sources| && sources[i].IsTree() && !Offers(env, sources[i], p)
    ensures !ListsTree(Claims(env, proj, sources, p).entries, sources[i].name)
  {
    var es := Claims(env, proj, sources, p).entries;
    forall k | 0 <= k < |es| ensures !FromTree(es[k], sources[i].name) {
      ClaimedByOfferers(env, proj, sources, p, es[k]);
      var j :| 0 <= j < |sources| && MadeBy(es[k], sources[j]) && Offers(env, sources[j], p);
      assert i != j;
    }
  }

  lemma ScanFormsKeepSources(es: seq<FileInfo>, name: string)
    requires ListsTree(es, name)
    ensures ListsTree(ScanForms(es), name)
  {
    var k :| 0 <= k < |es| && FromTree(es[k], name);
    assert FromTree(ScanForms(es)[k], name);
  }

  lemma ClaimInScanForm(env: Env, proj: Project, src: Source, c: Claim, p: Path)
    requires ScanForms(c.entries) == c.entries && Offers(env, src, p)
    ensures var c' := ClaimFrom(env, proj, src, c, p); ScanForms(c'.entries) == c'.entries
  {
    var e := VisitEntry(env, proj, src, p);
    if e.Some? {
      assert (c.entries + [e.value])[..|c.entries|] == c.entries;
    }
  }

  /** The walk leaves the titles of listed files empty already. */
  lemma {:induction false} ScannedInScanForm(env: Env, proj: Project, sources: seq<Source>, p: Path)
    ensures ScanForms(Claims(env, proj, sources, p).entries) == Claims(env, proj, sources, p).entries
    decreases sources
  {
    if sources == [] {
    } else {
      var n := |sources| - 1;
      ScannedInScanForm(env, proj, sources[..n], p);
      if Offers(env, sources[n], p) {
        ClaimInScanForm(env, proj, sources[n], Claims(env, proj, sources[..n], p), p);
      }
    }
  }

  lemma HiddenDiffers(env: Env, proj: Project, sources: seq<Source>, i: nat, p: Path)
    requires IsFile(env.root, p) && ProperSources(sources) && i < |sources|
    requires Contributes(env, proj, sources, i, p) && !NotHidden(env, sources[i], p)
    ensures ScanForms(ResolveClaims(env, proj, sources, p).entries) != Claims(env, proj, sources, p).entries
  {
    ContributionStays(env, proj, sources, i, p);
    ScanFormsKeepSources(ResolveClaims(env, proj, sources, p).entries, sources[i].name);
    WalkReachesIff(env, sources[i], p);
    NotOfferedNotListed(env, proj, sources, i, p);
  }

  /**
   * The shortcut's entries for a file are the walk's, exactly when no source that contributes to
   * them has its walk stopped by a `.git` component or by the name of its own root.
   */
  lemma ResolveAgreesIffNoneHidden(env: Env, proj: Project, p: Path)
    requires WellFormed(env.root) && ProperSources(proj.sources)
    requires HasMdSuffix(p) && IsFile(env.root, p) && !Escapes(Rel(proj.path, p))
    ensures ScanForms(Resolved(env, proj, p)) == At(ScanSources(env, proj, proj.sources).files, Rel(proj.path, p))
            <==> NoneHidden(env, proj, proj.sources, p)
  {
    ExistingPathIsClean(env.root, p);
    ScanView(env, proj, proj.sources, p);
    if NoneHidden(env, proj, proj.sources, p) {
      SameClaims(env, proj, proj.sources, p);
    } else {
      var i :| 0 <= i < |proj.sources| && Contributes(env, proj, proj.sources, i, p)
        && !NotHidden(env, proj.sources[i], p);
      HiddenDiffers(env, proj, proj.sources, i, p);
    }
  }

  /** Some source offers the file and its filters let it through. */
  ghost predicate SomeoneClaims(env: Env, proj: Project, sources: seq<Source>, p: Path) {
    exists i :: 0 <= i < |sources| && Offers(env, sources[i], p) && VisitEntry(env, proj, sources[i], p).Some?
  }

  lemma SomeoneMore(env: Env, proj: Project, init: seq<Source>, last: Source, p: Path)
    ensures SomeoneClaims(env, proj, init + [last], p) <==>
      SomeoneClaims(env, proj, init, p) || (Offers(env, last, p) && VisitEntry(env, proj, last, p).Some?)
  {
    var sources := init + [last];
    assert forall i :: 0 <= i < |init| ==> init[i] == sources[i];
    assert sources[|init|] == last;
  }

  lemma {:induction false} ClaimedIffSomeoneClaims(env: Env, proj: Project, sources: seq<Source>, p: Path)
    ensures Claims(env, proj, sources, p).entries != [] <==> SomeoneClaims(env, proj, sources, p)
    ensures Claims(env, proj, sources, p).taken ==> Claims(env, proj, sources, p).entries != []
    decreases sources
  {
    if sources == [] {
    } else {
      var n := |sources| - 1;
      var init := sources[..n];
      ClaimedIffSomeoneClaims(env, proj, init, p);
      SomeoneMore(env, proj, init, sources[n], p);
      assert init + [sources[n]] == sources;
    }
  }

  /** The guard under which the shortcut can be trusted. */
  ghost predicate ShortcutExact(env: Env, proj: Project, p: Path) {
    if Escapes(Rel(proj.path, p)) then !SomeoneClaims(env, proj, proj.sources, p)
    else !HasMdSuffix(p) || !IsFile(env.root, p) || NoneHidden(env, proj, proj.sources, p)
  }

  /**
   * Agreement for every path. The shortcut gives up on relative paths that start with "..", so
   * there it agrees only where no source (outside the project directory, say) claims the file.
   */
  lemma ResolveAgreesIff(env: Env, proj: Project, p: Path)
    requires WellFormed(env.root) && ProperSources(proj.sources) && Clean(p)
    ensures ScanForms(Resolved(env, proj, p)) == At(ScanSources(env, proj, proj.sources).files, Rel(proj.path, p))
            <==> ShortcutExact(env, proj, p)
  {
    ScanView(env, proj, proj.sources, p);
    ClaimedIffSomeoneClaims(env, proj, proj.sources, p);
    if Escapes(Rel(proj.path, p)) {
    } else if HasMdSuffix(p) && IsFile(env.root, p) {
      ResolveAgreesIffNoneHidden(env, proj, p);
    } else {
      NothingToClaim(env, proj, proj.sources, p);
    }
  }

  /** List `i` takes the file in the shortcut. */
  ghost predicate ListTakes(env: Env, proj: Project, sources: seq<Source>, i: nat, p: Path)
    requires i < |sources|
  {
    && sources[i].kind == "files" && p in sources[i].files
    && (sources[i].IsAllMarkdown() || !ResolveClaims(env, proj, sources[..i], p).taken)
  }

  /** No list takes the file, or there is no title that the walk could leave out. */
  ghost predicate NoTitleListed(env: Env, proj: Project, sources: seq<Source>, p: Path) {
    (exists m :: KindAt(env.root, p) == Regular(m, "")) ||
    forall i :: 0 <= i < |sources| ==> !ListTakes(env, proj, sources, i, p)
  }

  lemma NoTitleNext(env: Env, proj: Project, sources: seq<Source>, p: Path)
    requires sources != []
    ensures var n := |sources| - 1;
      NoTitleListed(env, proj, sources, p) <==>
        NoTitleListed(env, proj, sources[..n], p) &&
        ((exists m :: KindAt(env.root, p) == Regular(m, "")) || !ListTakes(env, proj, sources, n, p))
  {
    var init := sources[..|sources| - 1];
    forall i | 0 <= i < |init| ensures ListTakes(env, proj, init, i, p) <==> ListTakes(env, proj, sources, i, p) {
      assert init[..i] == sources[..i];
    }
  }

  /** The shortcut's titles are the walk's exactly then. */
  lemma {:induction false} TitlesLeftOutIff(env: Env, proj: Project, sources: seq<Source>, p: Path)
    requires HasMdSuffix(p) && IsFile(env.root, p)
    ensures var es := ResolveClaims(env, proj, sources, p).entries;
      ScanForms(es) == es <==> NoTitleListed(env, proj, sources, p)
    decreases sources
  {
    if sources == [] {
    } else {
      var n := |sources| - 1;
      var c := ResolveClaims(env, proj, sources[..n], p);
      TitlesLeftOutIff(env, proj, sources[..n], p);
      NoTitleNext(env, proj, sources, p);
      StepTitle(env, proj, sources[n], c, p);
    }
  }

  lemma AppendTitle(es: seq<FileInfo>, e: FileInfo)
    ensures ScanForms(es + [e]) == es + [e] <==> ScanForms(es) == es && ScanForm(e) == e
  {
    assert (es + [e])[..|es|] == es;
    assert ScanForms(es + [e]) == ScanForms(es) + [ScanForm(e)];
    assert (ScanForms(es) + [ScanForm(e)])[..|es|] == ScanForms(es);
    assert (ScanForms(es) + [ScanForm(e)])[|es|] == ScanForm(e);
  }

  /** Lists are the only sources whose titles the walk leaves out. */
  lemma SourceTitle(env: Env, proj: Project, src: Source, p: Path)
    requires HasMdSuffix(p) && IsFile(env.root, p)
    ensures var e := SourceEntry(env, proj, src, p);
      && (src.kind == "files" && p in src.files ==> e.Some?)
      && (e.Some? ==> (ScanForm(e.value) == e.value <==>
            (exists m :: KindAt(env.root, p) == Regular(m, "")) || !(src.kind == "files" && p in src.files)))
  {
    var title := KindAt(env.root, p).title;
    assert title == "" <==> KindAt(env.root, p) == Regular(KindAt(env.root, p).modTime, "");
  }

  lemma StepTitle(env: Env, proj: Project, src: Source, c: Claim, p: Path)
    requires HasMdSuffix(p) && IsFile(env.root, p)
    ensures var es := ResolveStep(env, proj, src, c, p).entries;
      ScanForms(es) == es <==>
        && ScanForms(c.entries) == c.entries
        && ((exists m :: KindAt(env.root, p) == Regular(m, "")) ||
            !(src.kind == "files" && p in src.files && (src.IsAllMarkdown() || !c.taken)))
  {
    var e := SourceEntry(env, proj, src, p);
    SourceTitle(env, proj, src, p);
    if e.Some? {
      AppendTitle(c.entries, e.value);
    }
  }

  /** The shortcut fills in no title that the walk leaves out. */
  ghost predicate NoTitleFilledIn(env: Env, proj: Project, p: Path) {
    HasMdSuffix(p) && IsFile(env.root, p) && !Escapes(Rel(proj.path, p)) ==>
      NoTitleListed(env, proj, proj.sources, p)
  }

  /** With titles: the answers are the same, entry by entry, exactly if no title is filled in either. */
  lemma ResolveIsWalkIff(env: Env, proj: Project, p: Path)
    requires WellFormed(env.root) && ProperSources(proj.sources) && Clean(p)
    ensures Resolved(env, proj, p) == At(ScanSources(env, proj, proj.sources).files, Rel(proj.path, p)) <==>
      ShortcutExact(env, proj, p) && NoTitleFilledIn(env, proj, p)
  {
    ResolveAgreesIff(env, proj, p);
    ScanView(env, proj, proj.sources, p);
    ScannedInScanForm(env, proj, proj.sources, p);
    if HasMdSuffix(p) && IsFile(env.root, p) {
      TitlesLeftOutIff(env, proj, proj.sources, p);
    }
  }

  lemma {:induction false} NothingToClaim(env: Env, proj: Project, sources: seq<Source>, p: Path)
    requires !HasMdSuffix(p) || !IsFile(env.root, p)
    ensures Claims(env, proj, sources, p).entries == []
    decreases sources
  {
    if sources == [] {
    } else {
      NothingToClaim(env, proj, sources[..|sources| - 1], p);
    }
  }

  // ---------------------------------------------------------------------------------------
  // One file in one tree source, for each way to disagree

  /** A directory that holds just this. */
  function Alone(name: string, node: Node): Node {
    Dir(0, [Entry(name, node)])
  }

  const NOTE := File(0, "")

  function EnvOf(root: Node, registry: map<string, SourceType>): Env {
    Env(root, (_: Path) => false, registry)
  }

  function ProjectOf(src: Source): Project {
    Project("p", "", ["p"], [src])
  }

  ghost predicate Disagree(env: Env, src: Source, p: Path) {
    && WellFormed(env.root) && ProperSources([src])
    && ScanForms(Resolved(env, ProjectOf(src), p)) !=
       At(ScanSources(env, ProjectOf(src), [src]).files, Rel(["p"], p))
  }

  lemma AloneLookup(name: string, node: Node, p: Path)
    requires p != []
    ensures Lookup(Alone(name, node), p) == if p[0] == name then Lookup(node, p[1..]) else None
    ensures name != ".." && WellFormed(node) ==> WellFormed(Alone(name, node))
  {
    var entries := [Entry(name, node)];
    assert entries[1..] == [] && FindEntry(entries[1..], name) == None && WellFormedEntries(entries[1..]);
    assert FindEntry(entries, p[0]) == if p[0] == name then Some(node) else None;
    assert name != ".." && WellFormed(node) ==> WellFormedEntries(entries);
  }

  /** The catch-all source of a project at /p. */
  const CATCH_ALL := Source(ALL_MARKDOWN, "tree", Some(["p"]), [], ALL_MARKDOWN, true)

  /** A file three levels down and nothing else. */
  lemma DeepLookup(a: string, b: string, c: string)
    requires a != ".." && b != ".." && c != ".."
    ensures var root := Alone(a, Alone(b, Alone(c, NOTE)));
      && WellFormed(root) && Lookup(root, [a, b, c]) == Some(NOTE)
      && forall name :: name != c ==> KindAt(root, [a, b, name]) == Missing
  {
    assert WellFormed(NOTE);
    forall name: string
      ensures Lookup(Alone(a, Alone(b, Alone(c, NOTE))), [a, b, name]) == if name == c then Some(NOTE) else None
    {
      assert [a, b, name][1..] == [b, name] && [b, name][1..] == [name] && [name][1..] == [];
      AloneLookup(a, Alone(b, Alone(c, NOTE)), [a, b, name]);
      AloneLookup(b, Alone(c, NOTE), [b, name]);
      AloneLookup(c, NOTE, [name]);
    }
    AloneLookup(a, Alone(b, Alone(c, NOTE)), [a]);
    AloneLookup(b, Alone(c, NOTE), [b]);
    AloneLookup(c, NOTE, [c]);
  }

  /** If the shortcut accepts the one file and something hides it from the walk, they disagree. */
  lemma HiddenDisagree(env: Env, src: Source, p: Path)
    requires WellFormed(env.root) && src.IsTree() && !Escapes(Rel(["p"], p)) && HasMdSuffix(p) && IsFile(env.root, p)
    requires Accepts(env, src, p) && TreeEntry(env, ProjectOf(src), src, p).Some? && !NotHidden(env, src, p)
    ensures Disagree(env, src, p)
  {
    assert Contributes(env, ProjectOf(src), [src], 0, p);
    ResolveAgreesIffNoneHidden(env, ProjectOf(src), p);
  }

  lemma RelInProject(p: Path, first: string)
    requires |p| >= 2 && p[0] == "p" && p[1] == first && |first| >= 2
    ensures Rel(["p"], p) == p[1..]
    ensures Escapes(Rel(["p"], p)) <==> first[..2] == ".."
  {
    RelBelow(["p"], p);
    assert p[1..][0] == first;
  }

  /** Nothing but the one directory lies between source root and file. */
  lemma AcceptsTwoBelow(env: Env, src: Source, p: Path)
    requires |p| == 3 && src.rootPath == Some(p[..1]) && TypeOf(env, src) == None && !env.ignored(p[..2])
    requires KindAt(env.root, p[..2] + [".git"]) == Missing
    ensures Accepts(env, src, p)
  {
    assert p[..1] <= p && |p[..1]| == 1;
  }

  const DOT_GIT := EnvOf(Alone("p", Alone(".git", Alone("a.md", NOTE))), map[])

  const IN_DOT_GIT: Path := ["p", ".git", "a.md"]

  lemma DotGitFile()
    ensures WellFormed(DOT_GIT.root) && Lookup(DOT_GIT.root, IN_DOT_GIT) == Some(NOTE)
    ensures IN_DOT_GIT[..1] == ["p"] && Base(IN_DOT_GIT[..2]) == ".git" && HasMdSuffix(IN_DOT_GIT)
    ensures KindAt(DOT_GIT.root, IN_DOT_GIT[..2] + [".git"]) == Missing
  {
    DeepLookup("p", ".git", "a.md");
    assert Base(IN_DOT_GIT) == "a.md" && "a.md"[1..] == ".md";
    assert ".git"[0] != "a.md"[0];
    assert IN_DOT_GIT[..2] + [".git"] == ["p", ".git", ".git"];
  }

  lemma DotGitAccepted()
    ensures Accepts(DOT_GIT, CATCH_ALL, IN_DOT_GIT) && !NotHidden(DOT_GIT, CATCH_ALL, IN_DOT_GIT)
    ensures TreeEntry(DOT_GIT, ProjectOf(CATCH_ALL), CATCH_ALL, IN_DOT_GIT).Some?
  {
    DotGitFile();
    AcceptsTwoBelow(DOT_GIT, CATCH_ALL, IN_DOT_GIT);
  }

  /** A markdown file inside `.git` is listed by the shortcut and not by the walk. */
  lemma DotGitCounterexample()
    ensures Disagree(DOT_GIT, CATCH_ALL, IN_DOT_GIT)
  {
    DotGitFile();
    DotGitAccepted();
    assert ".git"[..2][1] == 'g';
    RelInProject(IN_DOT_GIT, ".git");
    HiddenDisagree(DOT_GIT, CATCH_ALL, IN_DOT_GIT);
  }

  const SKIPPING := SourceType({"build"}, "", None)

  const SKIPPED_ROOT := Source("docs", "tree", Some(["p", "build"]), [], "t", true)

  const SKIPPED := EnvOf(Alone("p", Alone("build", Alone("a.md", NOTE))), map["t" := SKIPPING])

  const IN_SKIPPED: Path := ["p", "build", "a.md"]

  lemma SkippedFile()
    ensures WellFormed(SKIPPED.root) && Lookup(SKIPPED.root, IN_SKIPPED) == Some(NOTE) && HasMdSuffix(IN_SKIPPED)
  {
    DeepLookup("p", "build", "a.md");
    assert Base(IN_SKIPPED) == "a.md" && "a.md"[1..] == ".md";
  }

  lemma SkippedAccepted()
    ensures Accepts(SKIPPED, SKIPPED_ROOT, IN_SKIPPED) && !NotHidden(SKIPPED, SKIPPED_ROOT, IN_SKIPPED)
  {
    assert SKIPPED_ROOT.rootPath.value <= IN_SKIPPED;
  }

  /** A source rooted at a directory that its own type skips: listed by the shortcut, never walked. */
  lemma SkippedRootCounterexample()
    ensures Disagree(SKIPPED, SKIPPED_ROOT, IN_SKIPPED)
  {
    SkippedFile();
    SkippedAccepted();
    assert "build"[..2][0] == 'b';
    RelInProject(IN_SKIPPED, "build");
    HiddenDisagree(SKIPPED, SKIPPED_ROOT, IN_SKIPPED);
  }

  /** A file whose name starts with two dots is walked, but the shortcut takes it to be outside the project. */
  lemma TwoDotsCounterexample()
    ensures Disagree(EnvOf(Alone("p", Alone("..notes.md", NOTE)), map[]), CATCH_ALL, ["p", "..notes.md"])
  {
    var env, p := EnvOf(Alone("p", Alone("..notes.md", NOTE)), map[]), ["p", "..notes.md"];
    var name := "..notes.md";
    var rest: Path := [name];
    assert p[1..] == rest && |rest[1..]| == 0;
    AloneLookup("p", Alone(name, NOTE), p);
    AloneLookup(name, NOTE, [name]);
    assert |name| == 10 && name[7..] == ".md" && name[..2] == "..";
    RelInProject(p, name);
    assert p[..1] == ["p"] && "p"[0] == 'p';
    assert WalkReaches(env, CATCH_ALL, p);
    assert SomeoneClaims(env, ProjectOf(CATCH_ALL), [CATCH_ALL], p) by {
      assert Offers(env, [CATCH_ALL][0], p);
    }
    ExistingPathIsClean(env.root, p);
    ResolveAgreesIff(env, ProjectOf(CATCH_ALL), p);
  }
}
