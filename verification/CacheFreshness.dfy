/** Incremental updates give what a full rescan would. */
module CacheFreshness {
  import opened Collections
  import opened FileTree
  import opened SourceRules
  import opened SourceScan
  import opened ScanClaims
  import opened ResolveFile
  import opened FileLists
  import opened FileCache
  import opened FileChanges
  import opened KeptClaims
  import opened MarkerFiles

  /** The list holds what a rescan would find, but for titles of explicitly listed files. */
  ghost predicate UpToDate(files: seq<FileInfo>, env: Env, proj: Project) {
    multiset(ScanForms(files)) == multiset(ScanForms(FreshScan(env, proj)))
  }

  function TouchEntry(e: Option<FileInfo>, k: Kind): Option<FileInfo>
    requires k.Regular?
  {
    match e
    case None => None
    case Some(e) => Some(ScanForm(e.(modTime := k.modTime, title := k.title)))
  }

  lemma EntryTouched(env: Env, env': Env, proj: Project, src: Source, p: Path)
    requires OneFileChanged(env, env', p) && (src.IsTree() || src.kind == "files")
    requires KindAt(env.root, p).Regular? && KindAt(env'.root, p).Regular?
    ensures VisitEntry(env', proj, src, p) == TouchEntry(VisitEntry(env, proj, src, p), KindAt(env'.root, p))
    ensures VisitEntry(env, proj, src, p).Some? ==> VisitEntry(env, proj, src, p).value.fullPath == Rel(proj.path, p)
  {
    SiblingSame(env, env', src, p, p);
  }

  ghost predicate TouchedFrom(c: Claim, c': Claim, full: Path, k: Kind)
    requires k.Regular?
  {
    ScanForms(Touched(c.entries, full, k.modTime, k.title)) == c'.entries && c.taken == c'.taken
  }

  lemma TouchedStep(env: Env, env': Env, proj: Project, src: Source, c: Claim, c': Claim, p: Path)
    requires OneFileChanged(env, env', p) && (src.IsTree() || src.kind == "files")
    requires KindAt(env.root, p).Regular? && KindAt(env'.root, p).Regular?
    requires TouchedFrom(c, c', Rel(proj.path, p), KindAt(env'.root, p))
    ensures TouchedFrom(ClaimFrom(env, proj, src, c, p), ClaimFrom(env', proj, src, c', p), Rel(proj.path, p),
                        KindAt(env'.root, p))
  {
    EntryTouched(env, env', proj, src, p);
    var e, k := VisitEntry(env, proj, src, p), KindAt(env'.root, p);
    if e.Some? {
      TouchedAppend(c.entries, e.value, Rel(proj.path, p), k.modTime, k.title);
    }
  }

  /** A file that stays keeps its claims, with its new time and title. */
  lemma {:induction false} TouchedClaims(env: Env, env': Env, proj: Project, sources: seq<Source>, p: Path)
    requires OneFileChanged(env, env', p)
    requires KindAt(env.root, p).Regular? && KindAt(env'.root, p).Regular?
    ensures TouchedFrom(Claims(env, proj, sources, p), Claims(env', proj, sources, p), Rel(proj.path, p),
                        KindAt(env'.root, p))
    decreases sources
  {
    if sources == [] {
    } else {
      var init, last := sources[..|sources| - 1], sources[|sources| - 1];
      TouchedClaims(env, env', proj, init, p);
      OffersSame(env, env', last, p, p);
      if Offers(env, last, p) {
        TouchedStep(env, env', proj, last, Claims(env, proj, init, p), Claims(env', proj, init, p), p);
      }
    }
  }

  lemma TouchedAppend(s: seq<FileInfo>, e: FileInfo, full: Path, m: int, t: string)
    requires e.fullPath == full
    ensures ScanForms(Touched(s + [e], full, m, t)) ==
            ScanForms(Touched(s, full, m, t)) + [ScanForm(e.(modTime := m, title := t))]
  {
    var r := Touched(s + [e], full, m, t);
    assert r[..|s|] == Touched(s, full, m, t);
  }

  lemma {:induction false} TouchedManual(proj: Project, s: seq<FileInfo>, full: Path, m: int, t: string)
    ensures WithoutManual(proj, Touched(s, full, m, t)) == Touched(WithoutManual(proj, s), full, m, t)
  {
    if s == [] {
    } else {
      var init, last := s[..|s| - 1], s[|s| - 1];
      TouchedManual(proj, init, full, m, t);
      assert Touched(s, full, m, t)[..|s| - 1] == Touched(init, full, m, t);
      var kept := WithoutManual(proj, init);
      assert Touched(kept + [last], full, m, t) == Touched(kept, full, m, t) + Touched([last], full, m, t);
      assert kept + [] == kept;
    }
  }

  /** A rescan finds for a file what its sources claim, manual sources aside. */
  lemma FreshAt(env: Env, proj: Project, p: Path)
    requires WellFormed(env.root) && Clean(p)
    ensures At(FreshScan(env, proj), Rel(proj.path, p)) ==
      WithoutManual(proj, Claims(env, proj, proj.sources, p).entries)
  {
    AtWithoutManual(proj, ScanSources(env, proj, proj.sources).files, Rel(proj.path, p));
    ScanView(env, proj, proj.sources, p);
  }

  /** What the change leaves alone. */
  ghost predicate OthersKeep(env: Env, env': Env, proj: Project, p: Path) {
    StillThere(env, env', p) || (CatchAllIsTree(proj.sources) && NeighboursKeep(env, env', proj, p))
  }

  lemma FreshElsewhere(env: Env, env': Env, proj: Project, p: Path, full: Path)
    requires OneFileChanged(env, env', p) && full != Rel(proj.path, p) && OthersKeep(env, env', proj, p)
    ensures At(FreshScan(env', proj), full) == At(FreshScan(env, proj), full)
  {
    if At(FreshScan(env, proj), full) != [] {
      var q := FreshFile(env, proj, full);
      SameAtOther(env, env', proj, q, p);
    } else if At(FreshScan(env', proj), full) != [] {
      var q := FreshFile(env', proj, full);
      assert KindAt(env.root, q) == KindAt(env'.root, q);
      SameAtOther(env, env', proj, q, p);
    }
  }

  /** What a rescan finds is a file. */
  lemma FreshFile(env: Env, proj: Project, full: Path) returns (q: Path)
    requires WellFormed(env.root) && At(FreshScan(env, proj), full) != []
    ensures full == Rel(proj.path, q) && IsFile(env.root, q)
  {
    AtWithoutManual(proj, ScanSources(env, proj, proj.sources).files, full);
    ScannedPathsExist(env, proj, proj.sources, full);
    q :| full == Rel(proj.path, q) && IsFile(env.root, q);
  }

  lemma SameAtOther(env: Env, env': Env, proj: Project, q: Path, p: Path)
    requires OneFileChanged(env, env', p) && q != p && IsFile(env.root, q) && OthersKeep(env, env', proj, p)
    ensures At(FreshScan(env', proj), Rel(proj.path, q)) == At(FreshScan(env, proj), Rel(proj.path, q))
  {
    ExistingPathIsClean(env.root, q);
    FreshAt(env, proj, q);
    FreshAt(env', proj, q);
    if NoMarkerFor(env, env', q, p) {
      OtherClaimsSame(env, env', proj, proj.sources, q, p);
    } else {
      assert Beside(q, p);
      if KindAt(env.root, p) == Missing {
        SameKeptIfDispensable(env, env', proj, q, p);
      } else {
        Reversed(env, env', p);
        SameKeptIfDispensable(env', env, proj, q, p);
      }
    }
  }

  lemma Reversed(env: Env, env': Env, p: Path)
    requires OneFileChanged(env, env', p)
    ensures OneFileChanged(env', env, p)
  {
  }

  /** If the list was up to date and is again, with the same entries for other paths, the neighbours keep theirs. */
  lemma FreshNeighboursKeep(before: seq<FileInfo>, after: seq<FileInfo>, env: Env, env': Env, proj: Project, p: Path)
    requires OneFileChanged(env, env', p) && ProperSources(proj.sources)
    requires UpToDate(before, env, proj) && UpToDate(after, env', proj)
    requires forall full :: full != Rel(proj.path, p) ==> multiset(At(after, full)) == multiset(At(before, full))
    ensures NeighboursKeep(env, env', proj, p)
  {
    if !StillThere(env, env', p) {
      forall q | Beside(q, p) && IsFile(env.root, q)
        ensures if KindAt(env.root, p) == Missing then MarkerDispensable(env, env', proj, q, p)
          else MarkerDispensable(env', env, proj, q, p)
      {
        SameKeptOfNeighbour(before, after, env, env', proj, q, p);
        if KindAt(env.root, p) == Missing {
          SameKeptIffDispensable(env, env', proj, q, p);
        } else {
          Reversed(env, env', p);
          SameKeptIffDispensable(env', env, proj, q, p);
        }
      }
    }
  }

  lemma SameKeptOfNeighbour(before: seq<FileInfo>, after: seq<FileInfo>, env: Env, env': Env, proj: Project,
                            q: Path, p: Path)
    requires OneFileChanged(env, env', p) && q != p && IsFile(env.root, q)
    requires UpToDate(before, env, proj) && UpToDate(after, env', proj)
    requires forall full :: full != Rel(proj.path, p) ==> multiset(At(after, full)) == multiset(At(before, full))
    ensures multiset(WalkKept(env', proj, q)) == multiset(WalkKept(env, proj, q))
  {
    var full := Rel(proj.path, q);
    ExistingPathIsClean(env.root, q);
    if full == Rel(proj.path, p) { RelInjective(proj.path, q, p); }
    UpToDateAt(before, env, proj, full);
    UpToDateAt(after, env', proj, full);
    ScanFormsPermuted(At(after, full), At(before, full));
    FreshAt(env, proj, q);
    FreshAt(env', proj, q);
    KeptInScanForm(env, proj, q);
    KeptInScanForm(env', proj, q);
  }

  /** A list is up to date if it is so for every path. */
  lemma UpToDateByPath(files: seq<FileInfo>, env: Env, proj: Project)
    requires forall full :: multiset(ScanForms(At(files, full))) == multiset(ScanForms(At(FreshScan(env, proj), full)))
    ensures UpToDate(files, env, proj)
  {
    var a, b := ScanForms(files), ScanForms(FreshScan(env, proj));
    forall full ensures multiset(At(a, full)) == multiset(At(b, full)) {
      AtScanForms(files, full);
      AtScanForms(FreshScan(env, proj), full);
      assert multiset(ScanForms(At(files, full))) == multiset(ScanForms(At(FreshScan(env, proj), full)));
    }
    PathByPath(a, b);
  }

  lemma UpToDateAt(files: seq<FileInfo>, env: Env, proj: Project, full: Path)
    requires UpToDate(files, env, proj)
    ensures multiset(ScanForms(At(files, full))) == multiset(ScanForms(At(FreshScan(env, proj), full)))
  {
    AtScanForms(files, full);
    AtScanForms(FreshScan(env, proj), full);
    PermutedAt(ScanForms(files), ScanForms(FreshScan(env, proj)), full);
  }

  /** Path by path, for a list that was rearranged from `parts`. */
  lemma RearrangedUpToDate(after: seq<FileInfo>, parts: seq<FileInfo>, env: Env, proj: Project)
    requires multiset(after) == multiset(parts) && UpToDate(parts, env, proj)
    ensures UpToDate(after, env, proj)
  {
    ScanFormsPermuted(after, parts);
  }

  lemma ScanFormsPermuted(a: seq<FileInfo>, b: seq<FileInfo>)
    requires multiset(a) == multiset(b)
    ensures multiset(ScanForms(a)) == multiset(ScanForms(b))
  {
    MapPermuted(ScanForm, a, b);
    assert ScanForms(a) == Map(ScanForm, a) && ScanForms(b) == Map(ScanForm, b);
  }

  // ---------------------------------------------------------------------------------------

  lemma TouchKeepsUpToDate(files: seq<FileInfo>, env: Env, env': Env, proj: Project, p: Path)
    requires OneFileChanged(env, env', p) && UpToDate(files, env, proj)
    requires KindAt(env'.root, p).Regular? && At(files, Rel(proj.path, p)) != []
    ensures StillThere(env, env', p)
    ensures var k := KindAt(env'.root, p);
      UpToDate(Touched(files, Rel(proj.path, p), k.modTime, k.title), env', proj)
  {
    var k, full := KindAt(env'.root, p), Rel(proj.path, p);
    var after := Touched(files, full, k.modTime, k.title);
    var c, c' := Claims(env, proj, proj.sources, p), Claims(env', proj, proj.sources, p);
    UpToDateAt(files, env, proj, full);
    FreshAt(env, proj, p);
    FreshAt(env', proj, p);
    assert |ScanForms(At(files, full))| == |multiset(ScanForms(At(files, full)))|;
    if !IsFile(env.root, p) { NothingToClaim(env, proj, proj.sources, p); }
    TouchedClaims(env, env', proj, proj.sources, p);
    TouchPermuted(At(files, full), WithoutManual(proj, c.entries), full, k.modTime, k.title);
    TouchedManual(proj, c.entries, full, k.modTime, k.title);
    ManualScanForms(proj, Touched(c.entries, full, k.modTime, k.title));
    ScanFormsTwice(WithoutManual(proj, Touched(c.entries, full, k.modTime, k.title)));
    forall other
      ensures multiset(ScanForms(At(after, other))) == multiset(ScanForms(At(FreshScan(env', proj), other)))
    {
      AtTouched(files, full, k.modTime, k.title, other);
      if other != full {
        UpToDateAt(files, env, proj, other);
        FreshElsewhere(env, env', proj, p, other);
      }
    }
    UpToDateByPath(after, env', proj);
  }

  lemma ScanFormsTwice(s: seq<FileInfo>)
    ensures ScanForms(ScanForms(s)) == ScanForms(s)
  {
  }

  function TouchForm(full: Path, m: int, t: string, e: FileInfo): FileInfo {
    ScanForm(if e.fullPath == full then e.(modTime := m, title := t) else e)
  }

  /** Re-stating does not depend on the titles that were there. */
  lemma TouchAsMap(a: seq<FileInfo>, full: Path, m: int, t: string)
    ensures Map((e: FileInfo) => TouchForm(full, m, t, e), ScanForms(a)) == ScanForms(Touched(a, full, m, t))
  {
    var f := (e: FileInfo) => TouchForm(full, m, t, e);
    var r := Map(f, ScanForms(a));
    forall i | 0 <= i < |a| ensures r[i] == ScanForm(Touched(a, full, m, t)[i]) {
      assert r[i] == TouchForm(full, m, t, ScanForm(a[i]));
    }
  }

  /** Lists that agree up to titles still do after one path is re-stated in both. */
  lemma TouchPermuted(a: seq<FileInfo>, b: seq<FileInfo>, full: Path, m: int, t: string)
    requires multiset(ScanForms(a)) == multiset(ScanForms(b))
    ensures multiset(ScanForms(Touched(a, full, m, t))) == multiset(ScanForms(Touched(b, full, m, t)))
  {
    MapPermuted((e: FileInfo) => TouchForm(full, m, t, e), ScanForms(a), ScanForms(b));
    TouchAsMap(a, full, m, t);
    TouchAsMap(b, full, m, t);
  }

  lemma AddKeepsUpToDate(files: seq<FileInfo>, env: Env, env': Env, proj: Project, p: Path)
    requires OneFileChanged(env, env', p) && UpToDate(files, env, proj)
    requires CatchAllIsTree(proj.sources) && KeptExact(env', proj, p) && NeighboursKeep(env, env', proj, p)
    requires At(files, Rel(proj.path, p)) == []
    ensures UpToDate(files + WithoutManual(proj, Resolved(env', proj, p)), env', proj)
  {
    var full := Rel(proj.path, p);
    var found := Resolved(env', proj, p);
    var kept := WithoutManual(proj, found);
    KeptAgreeIfExact(env', proj, p);
    FreshAt(env', proj, p);
    ManualScanForms(proj, found);
    ScanFormsTwice(kept);
    AllAt(env', proj, p);
    forall other
      ensures multiset(ScanForms(At(files + kept, other))) == multiset(ScanForms(At(FreshScan(env', proj), other)))
    {
      AtAppend(files, kept, other);
      AtWithoutManual(proj, found, other);
      if other == full {
        assert [] + kept == kept;
      } else {
        UpToDateAt(files, env, proj, other);
        FreshElsewhere(env, env', proj, p, other);
        assert At(files, other) + [] == At(files, other);
      }
    }
    UpToDateByPath(files + kept, env', proj);
  }

  /** And only under the guard. */
  lemma AddedUpToDateIsExact(files: seq<FileInfo>, env: Env, proj: Project, p: Path)
    requires WellFormed(env.root) && Clean(p) && ProperSources(proj.sources) && At(files, Rel(proj.path, p)) == []
    requires UpToDate(files + WithoutManual(proj, Resolved(env, proj, p)), env, proj)
    ensures KeptExact(env, proj, p)
  {
    var full := Rel(proj.path, p);
    var kept := WithoutManual(proj, Resolved(env, proj, p));
    AllAt(env, proj, p);
    AtWithoutManual(proj, Resolved(env, proj, p), full);
    AtAppend(files, kept, full);
    assert At(files + kept, full) == kept by { assert [] + kept == kept; }
    UpToDateAt(files + kept, env, proj, full);
    FreshAt(env, proj, p);
    ScannedInScanForm(env, proj, proj.sources, p);
    ManualScanForms(proj, Claims(env, proj, proj.sources, p).entries);
    KeptAgreeIffExact(env, proj, p);
  }

  /** The shortcut's entries are all for the one file. */
  lemma AllAt(env: Env, proj: Project, p: Path)
    ensures At(Resolved(env, proj, p), Rel(proj.path, p)) == Resolved(env, proj, p)
    ensures forall other :: other != Rel(proj.path, p) ==> At(Resolved(env, proj, p), other) == []
  {
    AllClaimsAt(env, proj, proj.sources, p);
  }

  lemma {:induction false} AllClaimsAt(env: Env, proj: Project, sources: seq<Source>, p: Path)
    ensures var es := ResolveClaims(env, proj, sources, p).entries;
      At(es, Rel(proj.path, p)) == es && forall other :: other != Rel(proj.path, p) ==> At(es, other) == []
    decreases sources
  {
    if sources == [] {
    } else {
      var init := sources[..|sources| - 1];
      AllClaimsAt(env, proj, init, p);
      var es := ResolveClaims(env, proj, init, p).entries;
      var all := ResolveClaims(env, proj, sources, p).entries;
      if all != es {
        assert all[..|es|] == es;
      }
    }
  }

  lemma RemoveKeepsUpToDate(files: seq<FileInfo>, env: Env, env': Env, proj: Project, p: Path)
    requires OneFileChanged(env, env', p) && UpToDate(files, env, proj)
    requires KindAt(env'.root, p) == Missing && CatchAllIsTree(proj.sources) && NeighboursKeep(env, env', proj, p)
    ensures UpToDate(Removed(files, Rel(proj.path, p)), env', proj)
  {
    var full := Rel(proj.path, p);
    var after := Removed(files, full);
    FreshAt(env', proj, p);
    NothingToClaim(env', proj, proj.sources, p);
    forall other
      ensures multiset(ScanForms(At(after, other))) == multiset(ScanForms(At(FreshScan(env', proj), other)))
    {
      AtRemoved(files, full, other);
      if other != full {
        UpToDateAt(files, env, proj, other);
        FreshElsewhere(env, env', proj, p, other);
      }
    }
    UpToDateByPath(after, env', proj);
  }

  /** The update cannot go wrong: the file was listed, or it gets its entries and its neighbours keep theirs. */
  ghost predicate UpsertExact(before: seq<FileInfo>, env: Env, env': Env, proj: Project, p: Path) {
    || At(before, Rel(proj.path, p)) != []
    || (KeptExact(env', proj, p) && NeighboursKeep(env, env', proj, p))
  }

  /**
   * After a markdown file is created or rewritten, `UpsertFile` brings the list to what a rescan
   * would find, newest first. For a file that was not listed this rests on two guards: on the
   * shortcut, and on the neighbours if the file is a marker.
   */
  lemma UpsertIsRescan(before: seq<FileInfo>, after: seq<FileInfo>, env: Env, env': Env, proj: Project,
                       p: Path, ok: bool)
    requires OneFileChanged(env, env', p) && KindAt(env'.root, p).Regular?
    requires UpToDate(before, env, proj) && NewestFirst(before)
    requires CatchAllIsTree(proj.sources) && UpsertExact(before, env, env', proj, p)
    requires Upserted(before, after, env', proj, p, ok)
    ensures UpToDate(after, env', proj) && NewestFirst(after)
  {
    var k, full := KindAt(env'.root, p), Rel(proj.path, p);
    if At(before, full) != [] {
      TouchKeepsUpToDate(before, env, env', proj, p);
      RearrangedUpToDate(after, Touched(before, full, k.modTime, k.title), env', proj);
    } else {
      AddKeepsUpToDate(before, env, env', proj, p);
      UpsertAppends(before, after, env', proj, p, ok);
      RearrangedUpToDate(after, before + WithoutManual(proj, Resolved(env', proj, p)), env', proj);
    }
  }

  lemma UpsertAppends(before: seq<FileInfo>, after: seq<FileInfo>, env: Env, proj: Project, p: Path, ok: bool)
    requires KindAt(env.root, p).Regular? && At(before, Rel(proj.path, p)) == []
    requires Upserted(before, after, env, proj, p, ok)
    ensures multiset(after) == multiset(before + WithoutManual(proj, Resolved(env, proj, p)))
  {
    assert before + [] == before;
  }

  /** Those guards are exactly what it takes. */
  lemma UpsertIsRescanIff(before: seq<FileInfo>, after: seq<FileInfo>, env: Env, env': Env, proj: Project,
                          p: Path, ok: bool)
    requires OneFileChanged(env, env', p) && KindAt(env'.root, p).Regular?
    requires UpToDate(before, env, proj) && NewestFirst(before)
    requires ProperSources(proj.sources)
    requires Upserted(before, after, env', proj, p, ok)
    ensures NewestFirst(after)
    ensures UpToDate(after, env', proj) <==> UpsertExact(before, env, env', proj, p)
  {
    if UpsertExact(before, env, env', proj, p) {
      UpsertIsRescan(before, after, env, env', proj, p, ok);
    } else if UpToDate(after, env', proj) {
      UpsertAppends(before, after, env', proj, p, ok);
      RearrangedUpToDate(before + WithoutManual(proj, Resolved(env', proj, p)), after, env', proj);
      AddedUpToDateIsExact(before, env', proj, p);
      AppendedElsewhere(before, after, env', proj, p);
      FreshNeighboursKeep(before, after, env, env', proj, p);
    }
  }

  lemma AppendedElsewhere(before: seq<FileInfo>, after: seq<FileInfo>, env: Env, proj: Project, p: Path)
    requires multiset(after) == multiset(before + WithoutManual(proj, Resolved(env, proj, p)))
    ensures forall full :: full != Rel(proj.path, p) ==> multiset(At(after, full)) == multiset(At(before, full))
  {
    var found := Resolved(env, proj, p);
    var kept := WithoutManual(proj, found);
    AllAt(env, proj, p);
    forall full | full != Rel(proj.path, p) ensures multiset(At(after, full)) == multiset(At(before, full)) {
      PermutedAt(after, before + kept, full);
      AtAppend(before, kept, full);
      AtWithoutManual(proj, found, full);
      assert At(before, full) + [] == At(before, full);
    }
  }

  /** The guard on single files is enough, and without manual sources it is the same. */
  lemma ExactKeeps(env: Env, proj: Project, p: Path)
    requires WellFormed(env.root) && ProperSources(proj.sources) && Clean(p)
    ensures ShortcutExact(env, proj, p) ==> KeptExact(env, proj, p)
    ensures ManualNames(proj) == {} ==> (KeptExact(env, proj, p) <==> ShortcutExact(env, proj, p))
  {
    ResolveAgreesIff(env, proj, p);
    ScanView(env, proj, proj.sources, p);
    ManualScanForms(proj, Resolved(env, proj, p));
    KeptAgreeIffExact(env, proj, p);
    if ManualNames(proj) == {} && KeptExact(env, proj, p) {
      KeptAgreeIfExact(env, proj, p);
      NothingManual(proj, Resolved(env, proj, p));
      NothingManual(proj, Claims(env, proj, proj.sources, p).entries);
    }
  }

  /** After a markdown file is deleted, `RemoveFile` does the same, exactly if its neighbours keep their entries. */
  lemma RemoveIsRescanIff(before: seq<FileInfo>, after: seq<FileInfo>, env: Env, env': Env, proj: Project, p: Path)
    requires OneFileChanged(env, env', p) && KindAt(env'.root, p) == Missing
    requires UpToDate(before, env, proj) && NewestFirst(before) && ProperSources(proj.sources)
    requires after == Removed(before, Rel(proj.path, p))
    ensures NewestFirst(after)
    ensures UpToDate(after, env', proj) <==> NeighboursKeep(env, env', proj, p)
  {
    RemovedKeepsOrder(before, Rel(proj.path, p));
    if NeighboursKeep(env, env', proj, p) {
      RemoveKeepsUpToDate(before, env, env', proj, p);
    } else if UpToDate(after, env', proj) {
      forall full ensures full != Rel(proj.path, p) ==> At(after, full) == At(before, full) {
        AtRemoved(before, Rel(proj.path, p), full);
      }
      FreshNeighboursKeep(before, after, env, env', proj, p);
    }
  }

  lemma {:induction false} RemovedKeepsOrder(s: seq<FileInfo>, full: Path)
    requires NewestFirst(s)
    ensures NewestFirst(Removed(s, full))
    ensures forall x :: x in Removed(s, full) ==> x in s
  {
    if s == [] {
    } else {
      var init, last := s[..|s| - 1], s[|s| - 1];
      var key := (f: FileInfo) => -f.modTime;
      assert forall i, j :: 0 <= i < j < |init| ==> key(init[i]) <= key(init[j]);
      RemovedKeepsOrder(init, full);
      forall x | x in init ensures key(x) <= key(last) {
        var i :| 0 <= i < |init| && init[i] == x;
        assert key(s[i]) <= key(s[|s| - 1]);
      }
    }
  }

  /** Every time in one list is in the other. */
  lemma SameTimes(a: seq<FileInfo>, b: seq<FileInfo>, f: FileInfo)
    requires multiset(ScanForms(a)) == multiset(ScanForms(b)) && f in a
    ensures exists g :: g in b && g.modTime == f.modTime
  {
    var k :| 0 <= k < |a| && a[k] == f;
    var x := ScanForms(a)[k];
    assert x in ScanForms(a);
    PermutationKeepsElements(ScanForms(a), ScanForms(b));
    var i :| 0 <= i < |ScanForms(b)| && ScanForms(b)[i] == x;
    assert b[i].modTime == x.modTime == f.modTime;
  }

  /** The project's flags then say whether a rescan would find anything, and its newest time. */
  lemma MetadataIsExact(files: seq<FileInfo>, env: Env, proj: Project, m: ProjectMeta)
    requires UpToDate(files, env, proj) && NewestFirst(files)
    ensures MetaOf(m, files).hasFiles <==> FreshScan(env, proj) != []
    ensures files != [] ==>
      && (exists f :: f in FreshScan(env, proj) && f.modTime == MetaOf(m, files).lastModified)
      && (forall f :: f in FreshScan(env, proj) ==> f.modTime <= MetaOf(m, files).lastModified)
  {
    var scan := FreshScan(env, proj);
    assert |files| == |multiset(ScanForms(files))| == |multiset(ScanForms(scan))| == |scan|;
    if files != [] {
      SameTimes(files, scan, files[0]);
      forall f | f in scan ensures f.modTime <= files[0].modTime {
        SameTimes(scan, files, f);
        NewestIsFirst(files);
      }
    }
  }

  lemma NewestIsFirst(files: seq<FileInfo>)
    requires NewestFirst(files)
    ensures forall f :: f in files ==> f.modTime <= files[0].modTime
  {
    var key := (f: FileInfo) => -f.modTime;
    forall f | f in files ensures f.modTime <= files[0].modTime {
      var j :| 0 <= j < |files| && files[j] == f;
      assert j > 0 ==> key(files[0]) <= key(files[j]);
    }
  }

  // ---------------------------------------------------------------------------------------
  // Runs: a refresh, and then changes to single files, each followed by its update

  /** A changed file, the tree after the change, and the list after the update. */
  datatype Update = Update(p: Path, env: Env, files: seq<FileInfo>, ok: bool)

  ghost predicate UpdateOk(files: seq<FileInfo>, env: Env, proj: Project, u: Update) {
    && OneFileChanged(env, u.env, u.p)
    && if KindAt(u.env.root, u.p).Regular? then Upserted(files, u.files, u.env, proj, u.p, u.ok)
       else u.files == Removed(files, Rel(proj.path, u.p))
  }

  /** The update cannot go wrong. */
  ghost predicate UpdateExact(files: seq<FileInfo>, env: Env, proj: Project, u: Update) {
    if KindAt(u.env.root, u.p).Regular? then UpsertExact(files, env, u.env, proj, u.p)
    else NeighboursKeep(env, u.env, proj, u.p)
  }

  /** Every change follows the one before, and every list comes from the update of the one before. */
  ghost predicate UpdatesOk(files: seq<FileInfo>, env: Env, proj: Project, us: seq<Update>)
    decreases us
  {
    us == [] || (UpdateOk(files, env, proj, us[0]) && UpdatesOk(us[0].files, us[0].env, proj, us[1..]))
  }

  ghost predicate AllExact(files: seq<FileInfo>, env: Env, proj: Project, us: seq<Update>)
    decreases us
  {
    us == [] || (UpdateExact(files, env, proj, us[0]) && AllExact(us[0].files, us[0].env, proj, us[1..]))
  }

  /** The list is up to date at the start and after every update. */
  ghost predicate StaysFresh(files: seq<FileInfo>, env: Env, proj: Project, us: seq<Update>)
    decreases us
  {
    UpToDate(files, env, proj) && (us == [] || StaysFresh(us[0].files, us[0].env, proj, us[1..]))
  }

  lemma OneUpdate(files: seq<FileInfo>, env: Env, proj: Project, u: Update)
    requires ProperSources(proj.sources) && UpdateOk(files, env, proj, u)
    requires UpToDate(files, env, proj) && NewestFirst(files)
    ensures NewestFirst(u.files) && (UpToDate(u.files, u.env, proj) <==> UpdateExact(files, env, proj, u))
  {
    if KindAt(u.env.root, u.p).Regular? {
      UpsertIsRescanIff(files, u.files, env, u.env, proj, u.p, u.ok);
    } else {
      RemoveIsRescanIff(files, u.files, env, u.env, proj, u.p);
    }
  }

  /**
   * A list that is up to date stays so through any sequence of changes to single markdown files,
   * each followed by its update, exactly as long as no update brings an unlisted file for which
   * the shortcut is wrong, and none brings or takes a marker that matters to its neighbours.
   */
  lemma {:induction false} StaysFreshIff(files: seq<FileInfo>, env: Env, proj: Project, us: seq<Update>)
    requires ProperSources(proj.sources) && UpToDate(files, env, proj) && NewestFirst(files)
    requires UpdatesOk(files, env, proj, us)
    ensures StaysFresh(files, env, proj, us) <==> AllExact(files, env, proj, us)
    decreases us
  {
    if us == [] {
    } else {
      OneUpdate(files, env, proj, us[0]);
      if UpToDate(us[0].files, us[0].env, proj) {
        StaysFreshIff(us[0].files, us[0].env, proj, us[1..]);
      }
    }
  }

  /** So does the list a refresh leaves. */
  lemma RunStaysFreshIff(files: seq<FileInfo>, env: Env, proj: Project, us: seq<Update>)
    requires ProperSources(proj.sources) && UpdatesOk(files, env, proj, us)
    requires multiset(files) == multiset(FreshScan(env, proj)) && NewestFirst(files)
    ensures StaysFresh(files, env, proj, us) <==> AllExact(files, env, proj, us)
  {
    ScanFormsPermuted(files, FreshScan(env, proj));
    StaysFreshIff(files, env, proj, us);
  }

  /** Writing a markdown file is such a change. */
  lemma WriteIsOneFileChange(env: Env, p: Path, modTime: int, title: string)
    requires WellFormed(env.root) && Clean(p) && HasMdSuffix(p)
    requires p != [] && KindAt(env.root, Parent(p)) == Directory && KindAt(env.root, p) != Directory
    ensures OneFileChanged(env, env.(root := PutFile(env.root, p, modTime, title)), p)
    ensures KindAt(PutFile(env.root, p, modTime, title), p) == Regular(modTime, title)
  {
    PutFileIsLocal(env.root, p, modTime, title);
    PutFileIsWellFormed(env.root, p, modTime, title);
  }

  // ---------------------------------------------------------------------------------------
  // A marker that comes after the files it marks

  const ANCHORS := SourceType({}, "ANCHORS.md", None)

  const UNMARKED := EnvOf(Alone("p", Alone("mod", Alone("PRODUCT.md", NOTE))), map["anchors" := ANCHORS])

  const MODULES := Source("anchors", "tree", Some(["p"]), [], "anchors", true)

  const PRODUCT: Path := ["p", "mod", "PRODUCT.md"]

  const MARKER: Path := ["p", "mod", "ANCHORS.md"]

  function Marked(): Env {
    UNMARKED.(root := PutFile(UNMARKED.root, MARKER, 0, ""))
  }

  lemma MarkerCreated()
    ensures Created(UNMARKED, Marked(), MARKER) && KindAt(Marked().root, MARKER) == Regular(0, "")
    ensures KindAt(Marked().root, PRODUCT) == Regular(0, "") && IsFile(UNMARKED.root, PRODUCT)
    ensures KindAt(Marked().root, ["p", "mod", ".git"]) == Missing
  {
    DeepLookup("p", "mod", "PRODUCT.md");
    assert "ANCHORS.md"[0] == 'A' && "PRODUCT.md"[0] == 'P' && ".git"[0] == '.';
    assert Base(MARKER) == "ANCHORS.md" && |"ANCHORS.md"| == 10 && "ANCHORS.md"[7..] == ".md";
    var dir: Path := ["p", "mod"];
    assert Parent(MARKER) == dir && dir[1..] == ["mod"] && |dir[1..][1..]| == 0;
    AloneLookup("p", Alone("mod", Alone("PRODUCT.md", NOTE)), dir);
    AloneLookup("mod", Alone("PRODUCT.md", NOTE), ["mod"]);
    WriteIsOneFileChange(UNMARKED, MARKER, 0, "");
  }

  lemma ProductNeedsMarker()
    ensures Beside(PRODUCT, MARKER) && NeedingClaim(Marked(), ProjectOf(MODULES), PRODUCT, MARKER, 0)
  {
    MarkerCreated();
    assert "ANCHORS.md"[0] == 'A' && "PRODUCT.md"[0] == 'P';
    assert Base(PRODUCT) == "PRODUCT.md" && |"PRODUCT.md"| == 10 && "PRODUCT.md"[7..] == ".md";
    assert Parent(MARKER) == ["p", "mod"] == Parent(PRODUCT) && Parent(PRODUCT) + ["ANCHORS.md"] == MARKER;
    ProductReached();
    ClassifiedSomehow(Rel(["p"], PRODUCT));
    assert WalkLists(Marked(), ProjectOf(MODULES), MODULES, PRODUCT);
  }

  lemma ProductReached()
    ensures WalkReaches(Marked(), MODULES, PRODUCT)
  {
    MarkerCreated();
    assert PRODUCT[..1] == ["p"] && PRODUCT[..2] == ["p", "mod"] && PRODUCT[..2] + [".git"] == ["p", "mod", ".git"];
  }

  lemma ClassifiedSomehow(rel: Path)
    ensures Classify(Some(ANCHORS), rel) != ""
  {
  }

  lemma NeighboursMissed(before: seq<FileInfo>, after: seq<FileInfo>, env: Env, env': Env, proj: Project,
                         p: Path, ok: bool)
    requires Created(env, env', p) && KindAt(env'.root, p).Regular? && !NeighboursKeep(env, env', proj, p)
    requires UpToDate(before, env, proj) && NewestFirst(before) && ProperSources(proj.sources)
    requires Upserted(before, after, env', proj, p, ok)
    ensures !UpToDate(after, env', proj)
  {
    if At(before, Rel(proj.path, p)) != [] {
      TouchKeepsUpToDate(before, env, env', proj, p);
    }
    UpsertIsRescanIff(before, after, env, env', proj, p, ok);
  }

  /** Whatever the list was, after ANCHORS.md is created beside PRODUCT.md the update misses PRODUCT.md. */
  lemma MarkerCounterexample(before: seq<FileInfo>, after: seq<FileInfo>, ok: bool)
    requires UpToDate(before, UNMARKED, ProjectOf(MODULES)) && NewestFirst(before)
    requires Upserted(before, after, Marked(), ProjectOf(MODULES), MARKER, ok)
    ensures !UpToDate(after, Marked(), ProjectOf(MODULES))
  {
    ProductIsLost();
    NeighboursMissed(before, after, UNMARKED, Marked(), ProjectOf(MODULES), MARKER, ok);
  }

  lemma ProductIsLost()
    ensures Created(UNMARKED, Marked(), MARKER) && KindAt(Marked().root, MARKER).Regular?
    ensures !NeighboursKeep(UNMARKED, Marked(), ProjectOf(MODULES), MARKER)
    ensures ProperSources(ProjectOf(MODULES).sources)
  {
    MarkerCreated();
    ProductNeedsMarker();
    NothingIsManual();
    ClaimIsLost(UNMARKED, Marked(), ProjectOf(MODULES), PRODUCT, MARKER, 0);
  }

  lemma NothingIsManual()
    ensures ProperSources(ProjectOf(MODULES).sources) && !IsManual(ProjectOf(MODULES), MODULES)
  {
    assert "anchors"[0] != "manual"[0];
  }

  lemma ClaimIsLost(without: Env, with: Env, proj: Project, q: Path, p: Path, h: nat)
    requires Created(without, with, p) && Beside(q, p) && IsFile(without.root, q)
    requires h < |proj.sources| && NeedingClaim(with, proj, q, p, h) && !IsManual(proj, proj.sources[h])
    ensures !NeighboursKeep(without, with, proj, p)
  {
    assert !Dispensable(without, proj, q, h);
    assert !MarkerDispensable(without, with, proj, q, p);
  }
}
