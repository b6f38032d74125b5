/**
 * Changes to a single file. The file can be the marker that a source type requires beside the
 * files it lists (`RequireSibling`, apps/penpal/internal/discovery/discovery.go); then its
 * neighbours can come and go with it.
 */
module FileChanges {
  import opened FileTree
  import opened SourceRules
  import opened SourceScan
  import opened ScanClaims

  /** `env'` is `env` after one markdown file was created, rewritten or deleted. */
  ghost predicate OneFileChanged(env: Env, env': Env, p: Path) {
    && WellFormed(env.root) && WellFormed(env'.root)
    && env' == env.(root := env'.root)
    && DifferOnlyAt(env.root, env'.root, p)
    && Clean(p) && HasMdSuffix(p)
  }

  /** The file was neither created nor deleted. */
  ghost predicate StillThere(env: Env, env': Env, p: Path) {
    KindAt(env.root, p) == Missing <==> KindAt(env'.root, p) == Missing
  }

  predicate Beside(q: Path, p: Path) {
    q != p && Parent(q) == Parent(p)
  }

  /** The change cannot matter to what is required beside `q`. */
  ghost predicate NoMarkerFor(env: Env, env': Env, q: Path, p: Path) {
    StillThere(env, env', p) || Parent(q) != Parent(p)
  }

  lemma NotThere(env: Env, env': Env, p: Path, dir: Path, name: string)
    requires OneFileChanged(env, env', p) && (dir != Parent(p) || name != Base(p))
    ensures KindAt(env'.root, dir + [name]) == KindAt(env.root, dir + [name])
  {
    assert Base(dir + [name]) == name && Parent(dir + [name]) == dir;
  }

  lemma SiblingSame(env: Env, env': Env, src: Source, q: Path, p: Path)
    requires OneFileChanged(env, env', p)
    requires NoMarkerFor(env, env', q, p) || !NeedsMarker(env, src, p)
    ensures SiblingPresent(env', TypeOf(env, src), q) == SiblingPresent(env, TypeOf(env, src), q)
  {
    if TypeOf(env, src).Some? {
      var name := TypeOf(env, src).value.requireSibling;
      if Parent(q) == Parent(p) && name == Base(p) {
        assert Parent(q) + [name] == p;
      } else {
        NotThere(env, env', p, Parent(q), name);
      }
    }
  }

  /** The source's type requires a file of this name beside the files it lists. */
  predicate NeedsMarker(env: Env, src: Source, p: Path) {
    TypeOf(env, src).Some? && TypeOf(env, src).value.requireSibling == Base(p)
  }

  lemma PrunesSame(env: Env, env': Env, src: Source, root: Path, dir: Path, p: Path)
    requires OneFileChanged(env, env', p)
    ensures Prunes(env', src, root, dir) == Prunes(env, src, root, dir)
  {
    assert ".git"[1..] == "git" && Base(p)[|Base(p)| - 3..] == ".md";
    NotThere(env, env', p, dir, ".git");
  }

  /** The way to a file is open as before; only the file itself may have come or gone. */
  lemma OffersSame(env: Env, env': Env, src: Source, q: Path, p: Path)
    requires OneFileChanged(env, env', p)
    requires IsFile(env.root, q) == IsFile(env'.root, q)
    ensures Offers(env', src, q) == Offers(env, src, q)
  {
    if src.rootPath.Some? && src.rootPath.value <= q {
      forall k | |src.rootPath.value| <= k < |q|
        ensures Prunes(env', src, src.rootPath.value, q[..k]) == Prunes(env, src, src.rootPath.value, q[..k])
      {
        PrunesSame(env, env', src, src.rootPath.value, q[..k], p);
      }
    }
  }

  /** Files in other directories keep their claims, and all do if the changed file is still there. */
  lemma {:induction false} OtherClaimsSame(env: Env, env': Env, proj: Project, sources: seq<Source>, q: Path, p: Path)
    requires OneFileChanged(env, env', p) && q != p && NoMarkerFor(env, env', q, p)
    ensures Claims(env', proj, sources, q) == Claims(env, proj, sources, q)
    decreases sources
  {
    if sources == [] {
    } else {
      var last := sources[|sources| - 1];
      OtherClaimsSame(env, env', proj, sources[..|sources| - 1], q, p);
      assert KindAt(env.root, q) == KindAt(env'.root, q);
      OffersSame(env, env', last, q, p);
      SiblingSame(env, env', last, q, p);
    }
  }
}

/** What the file's neighbours lose when a marker goes, or gain when it comes. */
module MarkerFiles {
  import opened Collections
  import opened FileTree
  import opened SourceRules
  import opened SourceScan
  import opened ScanClaims
  import opened ResolveFile
  import opened FileLists
  import opened FileOffers
  import opened KeptClaims
  import opened FileChanges

  /** `with` is `without` and one more markdown file. */
  ghost predicate Created(without: Env, with: Env, p: Path) {
    && OneFileChanged(without, with, p)
    && KindAt(without.root, p) == Missing && KindAt(with.root, p) != Missing
  }

  /** Source `h` claims `q` in a rescan. */
  ghost predicate ClaimedBy(env: Env, proj: Project, q: Path, h: nat)
    requires h < |proj.sources|
  {
    && WalkLists(env, proj, proj.sources[h], q)
    && (proj.sources[h].IsAllMarkdown() || !Claims(env, proj, proj.sources[..h], q).taken)
  }

  /**
   * Of the sources that claim `q` while the marker is there, those that need it are manual, and do
   * not keep the file from a later source that is not.
   */
  ghost predicate MarkerDispensable(without: Env, with: Env, proj: Project, q: Path, p: Path) {
    forall h: nat :: h < |proj.sources| && NeedingClaim(with, proj, q, p, h) ==> Dispensable(without, proj, q, h)
  }

  ghost predicate NeedingClaim(with: Env, proj: Project, q: Path, p: Path, h: nat)
    requires h < |proj.sources|
  {
    proj.sources[h].IsTree() && NeedsMarker(with, proj.sources[h], p) && ClaimedBy(with, proj, q, h)
  }

  /** The change leaves what a rescan keeps of the file's neighbours alone. */
  ghost predicate NeighboursKeep(env: Env, env': Env, proj: Project, p: Path) {
    StillThere(env, env', p) || forall q :: Beside(q, p) && IsFile(env.root, q) ==>
      if KindAt(env.root, p) == Missing then MarkerDispensable(env, env', proj, q, p)
      else MarkerDispensable(env', env, proj, q, p)
  }

  // ---------------------------------------------------------------------------------------

  lemma EntryInScanForm(env: Env, proj: Project, src: Source, p: Path)
    requires Offers(env, src, p)
    ensures var e := VisitEntry(env, proj, src, p); e.Some? ==> ScanForm(e.value) == e.value
  {
  }

  /** Without the marker, the sources that need it make no offer. */
  lemma OfferWithout(without: Env, with: Env, proj: Project, src: Source, q: Path, p: Path)
    requires Created(without, with, p) && Beside(q, p)
    ensures WalkOffer(without, proj, src, q) ==
      if src.IsTree() && NeedsMarker(with, src, p) then Offer(None, !src.IsAllMarkdown())
      else WalkOffer(with, proj, src, q)
  {
    assert KindAt(without.root, q) == KindAt(with.root, q);
    OffersSame(without, with, src, q, p);
    if NeedsMarker(with, src, p) {
      assert Parent(q) + [Base(p)] == p;
    } else {
      SiblingSame(without, with, src, q, p);
    }
  }

  lemma WithoutIsNarrower(without: Env, with: Env, proj: Project, q: Path, p: Path)
    requires Created(without, with, p) && Beside(q, p) && CatchAllIsTree(proj.sources)
    ensures Narrower(WalkOffers(without, proj, proj.sources, q), WalkOffers(with, proj, proj.sources, q))
  {
    var ws, os := WalkOffers(without, proj, proj.sources, q), WalkOffers(with, proj, proj.sources, q);
    forall i | 0 <= i < |os| ensures OfferOk(ws[i], os[i]) {
      OfferWithout(without, with, proj, proj.sources[i], q, p);
      if os[i].entry.Some? { EntryInScanForm(with, proj, proj.sources[i], q); }
    }
  }

  lemma TakesIffClaimed(env: Env, proj: Project, q: Path, h: nat)
    requires CatchAllIsTree(proj.sources) && h < |proj.sources|
    ensures Takes(WalkOffers(env, proj, proj.sources, q), h) <==> ClaimedBy(env, proj, q, h)
  {
    var os := WalkOffers(env, proj, proj.sources, q);
    assert os[..h] == WalkOffers(env, proj, proj.sources[..h], q);
    WalkSettles(env, proj, proj.sources[..h], q);
    WalkOfferIs(env, proj, q, h);
  }

  lemma MarkerDispensableIff(without: Env, with: Env, proj: Project, q: Path, p: Path)
    requires Created(without, with, p) && Beside(q, p) && CatchAllIsTree(proj.sources)
    ensures MarkerDispensable(without, with, proj, q, p) <==>
      LossHarmless(proj, WalkOffers(without, proj, proj.sources, q), WalkOffers(with, proj, proj.sources, q))
  {
    var ws, os := WalkOffers(without, proj, proj.sources, q), WalkOffers(with, proj, proj.sources, q);
    forall h: nat | h < |proj.sources|
      ensures Lost(ws, os, h) <==> NeedingClaim(with, proj, q, p, h)
      ensures Lost(ws, os, h) ==> (Dispensable(without, proj, q, h) <==>
        Manual(proj, os[h]) && (os[h].exclusive ==> NextIsManual(proj, ws, h + 1)))
    {
      TakesIffClaimed(with, proj, q, h);
      OfferWithout(without, with, proj, proj.sources[h], q, p);
      WalkOfferIs(with, proj, q, h);
      NextIs(without, proj, q, h + 1);
    }
  }

  /** A marker that can be dispensed with changes nothing that is kept of a neighbour. */
  lemma SameKeptIfDispensable(without: Env, with: Env, proj: Project, q: Path, p: Path)
    requires Created(without, with, p) && Beside(q, p) && CatchAllIsTree(proj.sources)
    requires MarkerDispensable(without, with, proj, q, p)
    ensures WalkKept(without, proj, q) == WalkKept(with, proj, q)
  {
    var ws, os := WalkOffers(without, proj, proj.sources, q), WalkOffers(with, proj, proj.sources, q);
    WithoutIsNarrower(without, with, proj, q, p);
    MarkerDispensableIff(without, with, proj, q, p);
    SameTakersIff(proj, ws, os);
    SameTakersSameKept(proj, ws, os);
    WalkSettles(without, proj, proj.sources, q);
    WalkSettles(with, proj, proj.sources, q);
    KeptInScanForm(with, proj, q);
  }

  /** And any other does change it. */
  lemma SameKeptIffDispensable(without: Env, with: Env, proj: Project, q: Path, p: Path)
    requires Created(without, with, p) && Beside(q, p) && ProperSources(proj.sources)
    ensures MarkerDispensable(without, with, proj, q, p) <==>
      multiset(WalkKept(without, proj, q)) == multiset(WalkKept(with, proj, q))
  {
    var ws, os := WalkOffers(without, proj, proj.sources, q), WalkOffers(with, proj, proj.sources, q);
    WithoutIsNarrower(without, with, proj, q, p);
    MarkerDispensableIff(without, with, proj, q, p);
    WalkedTreesDistinct(with, proj, proj.sources, q);
    KeptAgreeIff(proj, ws, os);
    WalkSettles(without, proj, proj.sources, q);
    WalkSettles(with, proj, proj.sources, q);
    KeptInScanForm(with, proj, q);
  }

  lemma WalkedTreesDistinct(env: Env, proj: Project, sources: seq<Source>, p: Path)
    requires ProperSources(sources)
    ensures DistinctTrees(WalkOffers(env, proj, sources, p))
  {
    var os := WalkOffers(env, proj, sources, p);
    forall i: nat | i < |os| && os[i].entry.Some? && !IsList(os[i])
      ensures sources[i].IsTree() && os[i].entry.value.source == sources[i].name
    {
    }
  }

  lemma KeptInScanForm(env: Env, proj: Project, p: Path)
    ensures ScanForms(WalkKept(env, proj, p)) == WalkKept(env, proj, p)
  {
    ScannedInScanForm(env, proj, proj.sources, p);
    ManualScanForms(proj, Claims(env, proj, proj.sources, p).entries);
  }
}
