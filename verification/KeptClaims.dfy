/** Sources make offers for one file, in order; who takes it, and what is left without manual sources. */
module FileOffers {
  import opened Collections
  import opened FileTree
  import opened SourceRules
  import opened ScanClaims
  import opened ResolveFile
  import opened FileLists

  /** What a source would list for the file, and whether it claims the file for itself. */
  datatype Offer = Offer(entry: Option<FileInfo>, exclusive: bool)

  function Settle(c: Claim, o: Offer): Claim {
    if o.entry.Some? && (!o.exclusive || !c.taken)
    then Claim(c.entries + [o.entry.value], c.taken || o.exclusive)
    else c
  }

  /** The offers settled one after the other. */
  function Settled(os: seq<Offer>): Claim {
    if os == [] then Claim([], false) else Settle(Settled(os[..|os| - 1]), os[|os| - 1])
  }

  ghost predicate Takes(os: seq<Offer>, i: nat) {
    i < |os| && os[i].entry.Some? && (!os[i].exclusive || !Settled(os[..i]).taken)
  }

  lemma SettledNext(os: seq<Offer>, i: nat)
    requires i < |os|
    ensures Settled(os[..i + 1]) == Settle(Settled(os[..i]), os[i])
  {
    assert os[..i + 1][..i] == os[..i];
  }

  lemma TakesBefore(os: seq<Offer>, n: nat, i: nat)
    requires i < n <= |os|
    ensures Takes(os[..n], i) <==> Takes(os, i)
  {
    assert os[..n][..i] == os[..i];
  }

  lemma {:induction false} TakenStays(os: seq<Offer>, i: nat, j: nat)
    requires i <= j <= |os| && Settled(os[..i]).taken
    ensures Settled(os[..j]).taken
    decreases j
  {
    if i == j {
    } else {
      TakenStays(os, i, j - 1);
      SettledNext(os, j - 1);
    }
  }

  lemma TakerTakes(os: seq<Offer>, i: nat, j: nat)
    requires i < j <= |os| && Takes(os, i) && os[i].exclusive
    ensures Settled(os[..j]).taken
  {
    SettledNext(os, i);
    TakenStays(os, i + 1, j);
  }

  /** Every settled entry has a taker, */
  lemma {:induction false} TakerOf(os: seq<Offer>, e: FileInfo) returns (i: nat)
    requires e in Settled(os).entries
    ensures Takes(os, i) && os[i].entry == Some(e)
    decreases os
  {
    var n := |os| - 1;
    if e in Settled(os[..n]).entries {
      i := TakerOf(os[..n], e);
      TakesBefore(os, n, i);
    } else {
      i := n;
    }
  }

  /** and every taker its entry. */
  lemma {:induction false} EntryOf(os: seq<Offer>, i: nat)
    requires Takes(os, i)
    ensures os[i].entry.value in Settled(os).entries
    decreases os
  {
    var n := |os| - 1;
    if i == n {
    } else {
      TakesBefore(os, n, i);
      EntryOf(os[..n], i);
    }
  }

  // ---------------------------------------------------------------------------------------

  function Kept(proj: Project, os: seq<Offer>): seq<FileInfo> {
    WithoutManual(proj, Settled(os).entries)
  }

  predicate Manual(proj: Project, o: Offer) {
    o.entry.Some? && o.entry.value.source in ManualNames(proj)
  }

  lemma {:induction false} KeptMembers(proj: Project, s: seq<FileInfo>, e: FileInfo)
    ensures e in WithoutManual(proj, s) <==> e in s && e.source !in ManualNames(proj)
  {
    if s == [] {
    } else {
      assert s == s[..|s| - 1] + [s[|s| - 1]];
      KeptMembers(proj, s[..|s| - 1], e);
    }
  }

  lemma KeptNext(proj: Project, os: seq<Offer>)
    requires os != []
    ensures var n := |os| - 1;
      Kept(proj, os) == Kept(proj, os[..n]) + if Takes(os, n) && !Manual(proj, os[n]) then [os[n].entry.value] else []
  {
    var n := |os| - 1;
    var before := Settled(os[..n]).entries;
    assert Kept(proj, os[..n]) + [] == Kept(proj, os[..n]);
    if Takes(os, n) {
      assert (before + [os[n].entry.value])[..|before|] == before;
    }
  }

  /**
   * `ws` are the offers as the walk finds them, `os` as the shortcut does: it may find more trees to
   * offer the file, and it fills in titles.
   */
  ghost predicate Narrower(ws: seq<Offer>, os: seq<Offer>) {
    && |ws| == |os|
    && forall i :: 0 <= i < |os| ==> OfferOk(ws[i], os[i])
  }

  ghost predicate OfferOk(w: Offer, o: Offer) {
    && w.exclusive == o.exclusive
    && (w.entry.Some? ==> o.entry.Some? && w.entry.value == ScanForm(o.entry.value))
    && (IsList(o) ==> w.entry.Some? && o.exclusive)
  }

  predicate IsList(o: Offer) {
    o.entry.Some? && o.entry.value.sourceType == "files"
  }

  /** Trees that offer the file have different names. */
  ghost predicate DistinctTrees(os: seq<Offer>) {
    forall i: nat, j: nat ::
      i < j < |os| && os[i].entry.Some? && os[j].entry.Some? && !IsList(os[i]) && !IsList(os[j]) ==>
      os[i].entry.value.source != os[j].entry.value.source
  }

  /** Both are taken by the same sources, manual ones aside. */
  ghost predicate SameTakers(proj: Project, ws: seq<Offer>, os: seq<Offer>) {
    forall i: nat :: i < |os| && i < |ws| && !Manual(proj, os[i]) ==> (Takes(os, i) <==> Takes(ws, i))
  }

  lemma {:induction false} SameTakersSameKept(proj: Project, ws: seq<Offer>, os: seq<Offer>)
    requires Narrower(ws, os) && SameTakers(proj, ws, os)
    ensures ScanForms(Kept(proj, os)) == Kept(proj, ws)
    decreases os
  {
    if os == [] {
    } else {
      var n := |os| - 1;
      forall i: nat | i < n && !Manual(proj, os[i]) ensures Takes(os[..n], i) <==> Takes(ws[..n], i) {
        TakesBefore(os, n, i);
        TakesBefore(ws, n, i);
      }
      SameTakersSameKept(proj, ws[..n], os[..n]);
      KeptNext(proj, os);
      KeptNext(proj, ws);
      assert OfferOk(ws[n], os[n]);
      if Takes(os, n) && !Manual(proj, os[n]) {
        assert (Kept(proj, os[..n]) + [os[n].entry.value])[..|Kept(proj, os[..n])|] == Kept(proj, os[..n]);
      } else {
        assert Kept(proj, os[..n]) + [] == Kept(proj, os[..n]) && Kept(proj, ws[..n]) + [] == Kept(proj, ws[..n]);
      }
    }
  }

  /** What the walk's sources have claimed, the shortcut's have. */
  lemma {:induction false} TakenByMore(ws: seq<Offer>, os: seq<Offer>)
    requires Narrower(ws, os) && Settled(ws).taken
    ensures Settled(os).taken
    decreases os
  {
    if os == [] {
      assert ws == [];
    } else {
      var n := |os| - 1;
      assert OfferOk(ws[n], os[n]);
      if Settled(ws[..n]).taken { TakenByMore(ws[..n], os[..n]); }
    }
  }

  /** A list of files that takes among more offers takes among fewer. */
  lemma ListTakenByBoth(ws: seq<Offer>, os: seq<Offer>, i: nat)
    requires Narrower(ws, os) && Takes(os, i) && IsList(os[i])
    ensures Takes(ws, i)
  {
    assert OfferOk(ws[i], os[i]);
    if Settled(ws[..i]).taken { TakenByMore(ws[..i], os[..i]); }
  }

  lemma KeptTaker(proj: Project, os: seq<Offer>, i: nat)
    requires Takes(os, i) && !Manual(proj, os[i])
    ensures os[i].entry.value in Kept(proj, os)
  {
    EntryOf(os, i);
    KeptMembers(proj, Settled(os).entries, os[i].entry.value);
  }

  lemma TakerOfKept(proj: Project, os: seq<Offer>, e: FileInfo) returns (i: nat)
    requires e in Kept(proj, os)
    ensures Takes(os, i) && os[i].entry == Some(e)
  {
    KeptMembers(proj, Settled(os).entries, e);
    i := TakerOf(os, e);
  }

  lemma ShortcutTakerIsWalkTaker(proj: Project, ws: seq<Offer>, os: seq<Offer>, i: nat)
    requires Narrower(ws, os) && DistinctTrees(os) && Takes(os, i) && !Manual(proj, os[i])
    requires multiset(ScanForms(Kept(proj, os))) == multiset(Kept(proj, ws))
    ensures Takes(ws, i)
  {
    if IsList(os[i]) {
      ListTakenByBoth(ws, os, i);
    } else {
      KeptTaker(proj, os, i);
      var kept := Kept(proj, os);
      var k :| 0 <= k < |kept| && kept[k] == os[i].entry.value;
      assert ScanForms(kept)[k] in ScanForms(kept);
      PermutationKeepsElements(ScanForms(kept), Kept(proj, ws));
      var j := TakerOfKept(proj, ws, ScanForms(kept)[k]);
      assert OfferOk(ws[j], os[j]);
      assert i == j;
    }
  }

  lemma WalkTakerIsShortcutTaker(proj: Project, ws: seq<Offer>, os: seq<Offer>, i: nat)
    requires Narrower(ws, os) && DistinctTrees(os) && Takes(ws, i) && !Manual(proj, os[i])
    requires multiset(ScanForms(Kept(proj, os))) == multiset(Kept(proj, ws))
    ensures Takes(os, i)
  {
    assert OfferOk(ws[i], os[i]);
    KeptTaker(proj, ws, i);
    var kept := Kept(proj, os);
    PermutationKeepsElements(ScanForms(kept), Kept(proj, ws));
    var k :| 0 <= k < |ScanForms(kept)| && ScanForms(kept)[k] == ws[i].entry.value;
    var j := TakerOfKept(proj, os, kept[k]);
    if !IsList(os[i]) {
      assert i == j;
    } else if j < i {
      ListTakenByBoth(ws, os, j);
      assert OfferOk(ws[j], os[j]);
      TakerTakes(ws, j, i);
    } else if Settled(os[..i]).taken {
      TakenStays(os, i, j);
    }
  }

  /** A source that takes the file among the wider offers and does not offer it among the narrower. */
  ghost predicate Lost(ws: seq<Offer>, os: seq<Offer>, h: nat) {
    h < |ws| && Takes(os, h) && ws[h].entry == None
  }

  predicate Claiming(o: Offer) {
    o.exclusive && o.entry.Some?
  }

  /** From `from` on, `j` is the first to offer the file for itself. */
  ghost predicate FirstClaiming(ws: seq<Offer>, from: nat, j: nat) {
    from <= j < |ws| && Claiming(ws[j]) && forall k :: from <= k < j ==> !Claiming(ws[k])
  }

  ghost predicate NextIsManual(proj: Project, ws: seq<Offer>, from: nat) {
    forall j: nat :: FirstClaiming(ws, from, j) ==> Manual(proj, ws[j])
  }

  /** Whoever is lost is manual, and so is the one who takes the file in its place. */
  ghost predicate LossHarmless(proj: Project, ws: seq<Offer>, os: seq<Offer>) {
    forall h: nat :: Lost(ws, os, h) ==> Manual(proj, os[h]) && (os[h].exclusive ==> NextIsManual(proj, ws, h + 1))
  }

  lemma {:induction false} UntakenAlong(ws: seq<Offer>, from: nat, j: nat)
    requires from <= j <= |ws| && !Settled(ws[..from]).taken && forall k :: from <= k < j ==> !Claiming(ws[k])
    ensures !Settled(ws[..j]).taken
    decreases j
  {
    if from == j {
    } else {
      UntakenAlong(ws, from, j - 1);
      SettledNext(ws, j - 1);
    }
  }

  lemma UntakenByFewer(ws: seq<Offer>, os: seq<Offer>, i: nat)
    requires Narrower(ws, os) && i <= |os| && !Settled(os[..i]).taken
    ensures !Settled(ws[..i]).taken
  {
    if Settled(ws[..i]).taken {
      TakenByMore(ws[..i], os[..i]);
    }
  }

  /** Whoever takes a file that is taken already shares it; otherwise someone took it for itself. */
  lemma {:induction false} TakerBefore(os: seq<Offer>, i: nat) returns (h: nat)
    requires i <= |os| && Settled(os[..i]).taken
    ensures h < i && Takes(os, h) && os[h].exclusive
    decreases i
  {
    if i > 0 { SettledNext(os, i - 1); }
    if Settled(os[..i - 1]).taken {
      h := TakerBefore(os, i - 1);
    } else {
      h := i - 1;
    }
  }

  /** The next in line takes the place of a lost source. */
  lemma PlaceIsTaken(ws: seq<Offer>, os: seq<Offer>, h: nat, j: nat)
    requires Narrower(ws, os) && Lost(ws, os, h) && os[h].exclusive && FirstClaiming(ws, h + 1, j)
    ensures Takes(ws, j) && !Takes(os, j)
  {
    UntakenByFewer(ws, os, h);
    UntakenAlong(ws, h, j);
    assert OfferOk(ws[j], os[j]);
    TakerTakes(os, h, j);
  }

  lemma ShutOutBehindLost(ws: seq<Offer>, os: seq<Offer>, i: nat) returns (h: nat)
    requires Narrower(ws, os) && Takes(ws, i) && !Takes(os, i)
    ensures Lost(ws, os, h) && os[h].exclusive && FirstClaiming(ws, h + 1, i)
  {
    assert OfferOk(ws[i], os[i]);
    h := TakerBefore(os, i);
    assert OfferOk(ws[h], os[h]);
    UntakenByFewer(ws, os, h);
    if ws[h].entry.Some? { TakerTakes(ws, h, i); }
    forall k | h + 1 <= k < i ensures !Claiming(ws[k]) {
      if Claiming(ws[k]) {
        SettledNext(ws, k);
        TakenStays(ws, k + 1, i);
      }
    }
  }

  /** The takers agree, manual ones aside, exactly if nothing is lost to harm. */
  lemma SameTakersIff(proj: Project, ws: seq<Offer>, os: seq<Offer>)
    requires Narrower(ws, os)
    ensures SameTakers(proj, ws, os) <==> LossHarmless(proj, ws, os)
  {
    if SameTakers(proj, ws, os) {
      forall h: nat | Lost(ws, os, h)
        ensures Manual(proj, os[h]) && (os[h].exclusive ==> NextIsManual(proj, ws, h + 1))
      {
        if os[h].exclusive {
          forall j: nat | FirstClaiming(ws, h + 1, j) ensures Manual(proj, ws[j]) {
            PlaceIsTaken(ws, os, h, j);
            assert OfferOk(ws[j], os[j]);
          }
        }
      }
    }
    if LossHarmless(proj, ws, os) {
      forall i: nat | i < |os| && !Manual(proj, os[i]) ensures Takes(os, i) <==> Takes(ws, i) {
        assert OfferOk(ws[i], os[i]);
        if Takes(os, i) {
          assert !Lost(ws, os, i);
          if os[i].exclusive { UntakenByFewer(ws, os, i); }
        } else if Takes(ws, i) {
          var h := ShutOutBehindLost(ws, os, i);
        }
      }
    }
  }

  /** The kept entries agree iff whoever is lost, and whoever takes its place, is manual. */
  lemma KeptAgreeIff(proj: Project, ws: seq<Offer>, os: seq<Offer>)
    requires Narrower(ws, os) && DistinctTrees(os)
    ensures multiset(ScanForms(Kept(proj, os))) == multiset(Kept(proj, ws)) <==> LossHarmless(proj, ws, os)
  {
    SameTakersIff(proj, ws, os);
    if SameTakers(proj, ws, os) {
      SameTakersSameKept(proj, ws, os);
    }
    if multiset(ScanForms(Kept(proj, os))) == multiset(Kept(proj, ws)) {
      forall i: nat | i < |os| && !Manual(proj, os[i]) ensures Takes(os, i) <==> Takes(ws, i) {
        if Takes(os, i) { ShortcutTakerIsWalkTaker(proj, ws, os, i); }
        if Takes(ws, i) { WalkTakerIsShortcutTaker(proj, ws, os, i); }
      }
    }
  }

  /** Every source that would take the file is manual. */
  ghost predicate NobodyKept(proj: Project, ws: seq<Offer>) {
    && (forall i: nat :: i < |ws| && ws[i].entry.Some? && !ws[i].exclusive ==> Manual(proj, ws[i]))
    && NextIsManual(proj, ws, 0)
  }

  lemma NothingKeptIff(proj: Project, ws: seq<Offer>)
    ensures Kept(proj, ws) == [] <==> NobodyKept(proj, ws)
  {
    if Kept(proj, ws) != [] {
      var e := Kept(proj, ws)[0];
      KeptMembers(proj, Settled(ws).entries, e);
      var i := TakerOf(ws, e);
      if ws[i].exclusive { TakesFirst(ws, i); }
    } else {
      forall i: nat | i < |ws| && ws[i].entry.Some? && !ws[i].exclusive ensures Manual(proj, ws[i]) {
        if !Manual(proj, ws[i]) { KeptTaker(proj, ws, i); }
      }
      forall j: nat | FirstClaiming(ws, 0, j) ensures Manual(proj, ws[j]) {
        UntakenAlong(ws, 0, j);
        if !Manual(proj, ws[j]) { KeptTaker(proj, ws, j); }
      }
    }
  }

  lemma TakesFirst(ws: seq<Offer>, i: nat)
    requires Takes(ws, i) && ws[i].exclusive
    ensures FirstClaiming(ws, 0, i)
  {
    forall k | 0 <= k < i ensures !Claiming(ws[k]) {
      if Claiming(ws[k]) {
        SettledNext(ws, k);
        TakenStays(ws, k + 1, i);
      }
    }
  }
}

/** When the shortcut's entries, manual sources aside, are the walk's. */
module KeptClaims {
  import opened Collections
  import opened FileTree
  import opened SourceRules
  import opened SourceScan
  import opened ScanClaims
  import opened ResolveFile
  import opened FileLists
  import opened FileOffers

  ghost function ShortcutOffer(env: Env, proj: Project, src: Source, p: Path): Offer {
    Offer(SourceEntry(env, proj, src, p), !src.IsAllMarkdown())
  }

  ghost function WalkOffer(env: Env, proj: Project, src: Source, p: Path): Offer {
    Offer(if Offers(env, src, p) then VisitEntry(env, proj, src, p) else None, !src.IsAllMarkdown())
  }

  ghost function ShortcutOffers(env: Env, proj: Project, sources: seq<Source>, p: Path): (os: seq<Offer>)
    ensures |os| == |sources|
  {
    seq(|sources|, i requires 0 <= i < |sources| => ShortcutOffer(env, proj, sources[i], p))
  }

  ghost function WalkOffers(env: Env, proj: Project, sources: seq<Source>, p: Path): (ws: seq<Offer>)
    ensures |ws| == |sources|
  {
    seq(|sources|, i requires 0 <= i < |sources| => WalkOffer(env, proj, sources[i], p))
  }

  predicate IsManual(proj: Project, src: Source) {
    src.name in ManualNames(proj)
  }

  /** A rescan would list the file for this source if no earlier one stood in its way. */
  ghost predicate WalkLists(env: Env, proj: Project, src: Source, p: Path) {
    Offers(env, src, p) && VisitEntry(env, proj, src, p).Some?
  }

  ghost predicate WalkClaims(env: Env, proj: Project, src: Source, p: Path) {
    !src.IsAllMarkdown() && WalkLists(env, proj, src, p)
  }

  /** From `from` on, source `j` is the first that claims the file for itself in a rescan. */
  ghost predicate NextToClaim(env: Env, proj: Project, p: Path, from: nat, j: nat) {
    && from <= j < |proj.sources| && WalkClaims(env, proj, proj.sources[j], p)
    && forall k :: from <= k < j ==> !WalkClaims(env, proj, proj.sources[k], p)
  }

  ghost predicate NextToClaimIsManual(env: Env, proj: Project, p: Path, from: nat) {
    forall j: nat :: NextToClaim(env, proj, p, from, j) ==> IsManual(proj, proj.sources[j])
  }

  /** That the source no longer has the file makes no difference to what is kept. */
  ghost predicate Dispensable(env: Env, proj: Project, p: Path, h: nat)
    requires h < |proj.sources|
  {
    && IsManual(proj, proj.sources[h])
    && (!proj.sources[h].IsAllMarkdown() ==> NextToClaimIsManual(env, proj, p, h + 1))
  }

  /**
   * The guard under which the shortcut can be trusted by a cached list. A source whose walk is
   * stopped on the way does no harm if it is manual and does not keep the file from a later source
   * that is not. Where the shortcut gives up, all who would list the file must be manual.
   */
  ghost predicate KeptExact(env: Env, proj: Project, p: Path) {
    if Escapes(Rel(proj.path, p)) then
      && (forall src :: src in proj.sources && src.IsAllMarkdown() && WalkLists(env, proj, src, p) ==>
            IsManual(proj, src))
      && NextToClaimIsManual(env, proj, p, 0)
    else
      !HasMdSuffix(p) || !IsFile(env.root, p) || HiddenDispensable(env, proj, p)
  }

  ghost predicate HiddenDispensable(env: Env, proj: Project, p: Path) {
    forall h: nat :: h < |proj.sources| && Hidden(env, proj, p, h) ==> Dispensable(env, proj, p, h)
  }

  /** Source `h` contributes to the shortcut's answer although its walk is stopped on the way. */
  ghost predicate Hidden(env: Env, proj: Project, p: Path, h: nat)
    requires h < |proj.sources|
  {
    Contributes(env, proj, proj.sources, h, p) && !NotHidden(env, proj.sources[h], p)
  }

  // ---------------------------------------------------------------------------------------
  // The guard in terms of offers

  lemma WalkOfferIs(env: Env, proj: Project, p: Path, i: nat)
    requires CatchAllIsTree(proj.sources) && i < |proj.sources|
    ensures var w, src := WalkOffers(env, proj, proj.sources, p)[i], proj.sources[i];
      && (w.entry.Some? <==> WalkLists(env, proj, src, p))
      && (Claiming(w) <==> WalkClaims(env, proj, src, p))
      && (w.entry.Some? ==> (Manual(proj, w) <==> IsManual(proj, src)))
  {
  }

  lemma NextIs(env: Env, proj: Project, p: Path, from: nat)
    requires CatchAllIsTree(proj.sources)
    ensures NextIsManual(proj, WalkOffers(env, proj, proj.sources, p), from) <==>
      NextToClaimIsManual(env, proj, p, from)
  {
    var ws := WalkOffers(env, proj, proj.sources, p);
    forall i: nat | i < |ws| ensures Claiming(ws[i]) <==> WalkClaims(env, proj, proj.sources[i], p) {
      WalkOfferIs(env, proj, p, i);
    }
    forall j: nat
      ensures FirstClaiming(ws, from, j) <==> NextToClaim(env, proj, p, from, j)
      ensures FirstClaiming(ws, from, j) ==> (Manual(proj, ws[j]) <==> IsManual(proj, proj.sources[j]))
    {
      if j < |ws| { WalkOfferIs(env, proj, p, j); }
    }
  }

  /** A source is lost to the walk iff it contributes to the shortcut's answer and is hidden. */
  lemma LostIffHidden(env: Env, proj: Project, p: Path, h: nat)
    requires IsFile(env.root, p) && CatchAllIsTree(proj.sources) && h < |proj.sources|
    ensures var ws, os := WalkOffers(env, proj, proj.sources, p), ShortcutOffers(env, proj, proj.sources, p);
      && (Lost(ws, os, h) <==> Hidden(env, proj, p, h))
      && (os[h].entry.Some? ==> (Manual(proj, os[h]) <==> IsManual(proj, proj.sources[h])))
  {
    TakesIff(env, proj, p, h);
    OfferLostIff(env, proj, proj.sources[h], p);
  }

  lemma TakesIff(env: Env, proj: Project, p: Path, h: nat)
    requires h < |proj.sources|
    ensures var src := proj.sources[h];
      Takes(ShortcutOffers(env, proj, proj.sources, p), h) <==>
        && ShortcutOffer(env, proj, src, p).entry.Some?
        && (src.IsAllMarkdown() || !ResolveClaims(env, proj, proj.sources[..h], p).taken)
  {
    var os := ShortcutOffers(env, proj, proj.sources, p);
    assert os[..h] == ShortcutOffers(env, proj, proj.sources[..h], p);
    ShortcutSettles(env, proj, proj.sources[..h], p);
  }

  /** Only trees are hidden. */
  lemma OfferLostIff(env: Env, proj: Project, src: Source, p: Path)
    requires IsFile(env.root, p) && (src.IsAllMarkdown() ==> src.IsTree())
    ensures var w, o := WalkOffer(env, proj, src, p), ShortcutOffer(env, proj, src, p);
      && (o.entry.Some? && w.entry == None <==> src.IsTree() && o.entry.Some? && !NotHidden(env, src, p))
      && (src.IsTree() ==> (o.entry.Some? <==> Accepts(env, src, p) && TreeEntry(env, proj, src, p).Some?))
      && (o.entry.Some? ==> o.entry.value.source == src.name)
  {
    if src.IsTree() { WalkReachesIff(env, src, p); }
  }

  lemma HiddenDispensableIff(env: Env, proj: Project, p: Path)
    requires IsFile(env.root, p) && CatchAllIsTree(proj.sources)
    ensures HiddenDispensable(env, proj, p) <==>
      LossHarmless(proj, WalkOffers(env, proj, proj.sources, p), ShortcutOffers(env, proj, proj.sources, p))
  {
    var ws, os := WalkOffers(env, proj, proj.sources, p), ShortcutOffers(env, proj, proj.sources, p);
    forall h: nat | h < |proj.sources|
      ensures Lost(ws, os, h) <==> Hidden(env, proj, p, h)
      ensures Lost(ws, os, h) ==> (Dispensable(env, proj, p, h) <==>
        Manual(proj, os[h]) && (os[h].exclusive ==> NextIsManual(proj, ws, h + 1)))
    {
      LostIffHidden(env, proj, p, h);
      NextIs(env, proj, p, h + 1);
    }
  }

  lemma NobodyKeptIff(env: Env, proj: Project, p: Path)
    requires CatchAllIsTree(proj.sources) && Escapes(Rel(proj.path, p))
    ensures KeptExact(env, proj, p) <==> NobodyKept(proj, WalkOffers(env, proj, proj.sources, p))
  {
    var ws := WalkOffers(env, proj, proj.sources, p);
    NextIs(env, proj, p, 0);
    forall i: nat | i < |ws|
      ensures ws[i].entry.Some? <==> WalkLists(env, proj, proj.sources[i], p)
      ensures ws[i].entry.Some? ==> (Manual(proj, ws[i]) <==> IsManual(proj, proj.sources[i]))
      ensures ws[i].exclusive <==> !proj.sources[i].IsAllMarkdown()
    {
      WalkOfferIs(env, proj, p, i);
    }
  }

  lemma {:induction false} ShortcutSettles(env: Env, proj: Project, sources: seq<Source>, p: Path)
    ensures ResolveClaims(env, proj, sources, p) == Settled(ShortcutOffers(env, proj, sources, p))
    decreases sources
  {
    if sources == [] {
    } else {
      var n := |sources| - 1;
      ShortcutSettles(env, proj, sources[..n], p);
      assert ShortcutOffers(env, proj, sources, p)[..n] == ShortcutOffers(env, proj, sources[..n], p);
      StepSettles(env, proj, sources[n], ResolveClaims(env, proj, sources[..n], p), p);
    }
  }

  lemma StepSettles(env: Env, proj: Project, src: Source, c: Claim, p: Path)
    ensures ResolveStep(env, proj, src, c, p) == Settle(c, ShortcutOffer(env, proj, src, p))
  {
  }

  lemma ClaimSettles(env: Env, proj: Project, src: Source, c: Claim, p: Path)
    requires src.IsAllMarkdown() ==> src.IsTree()
    ensures (if Offers(env, src, p) then ClaimFrom(env, proj, src, c, p) else c) ==
      Settle(c, WalkOffer(env, proj, src, p))
  {
  }

  lemma {:induction false} WalkSettles(env: Env, proj: Project, sources: seq<Source>, p: Path)
    requires CatchAllIsTree(sources)
    ensures Claims(env, proj, sources, p) == Settled(WalkOffers(env, proj, sources, p))
    decreases sources
  {
    if sources == [] {
    } else {
      var n := |sources| - 1;
      WalkSettles(env, proj, sources[..n], p);
      assert WalkOffers(env, proj, sources, p)[..n] == WalkOffers(env, proj, sources[..n], p);
      ClaimSettles(env, proj, sources[n], Claims(env, proj, sources[..n], p), p);
    }
  }

  lemma WalkOfferIsNarrower(env: Env, proj: Project, src: Source, p: Path)
    requires IsFile(env.root, p) && (src.IsAllMarkdown() ==> src.IsTree())
    ensures OfferOk(WalkOffer(env, proj, src, p), ShortcutOffer(env, proj, src, p))
  {
    if src.IsTree() { WalkReachesIff(env, src, p); }
  }

  lemma OffersRelate(env: Env, proj: Project, sources: seq<Source>, p: Path)
    requires IsFile(env.root, p) && CatchAllIsTree(sources)
    ensures Narrower(WalkOffers(env, proj, sources, p), ShortcutOffers(env, proj, sources, p))
  {
    forall i | 0 <= i < |sources|
      ensures OfferOk(WalkOffers(env, proj, sources, p)[i], ShortcutOffers(env, proj, sources, p)[i])
    {
      WalkOfferIsNarrower(env, proj, sources[i], p);
    }
  }

  lemma OfferedTreesDistinct(env: Env, proj: Project, sources: seq<Source>, p: Path)
    requires ProperSources(sources)
    ensures DistinctTrees(ShortcutOffers(env, proj, sources, p))
  {
    var os := ShortcutOffers(env, proj, sources, p);
    forall i: nat | i < |os| && os[i].entry.Some? && !IsList(os[i])
      ensures sources[i].IsTree() && os[i].entry.value.source == sources[i].name
    {
    }
  }

  /** What a rescan keeps of the file. */
  ghost function WalkKept(env: Env, proj: Project, p: Path): seq<FileInfo> {
    WithoutManual(proj, Claims(env, proj, proj.sources, p).entries)
  }

  lemma KeptAgreeIfExact(env: Env, proj: Project, p: Path)
    requires CatchAllIsTree(proj.sources) && KeptExact(env, proj, p)
    ensures ScanForms(WithoutManual(proj, Resolved(env, proj, p))) == WalkKept(env, proj, p)
  {
    var ws, os := WalkOffers(env, proj, proj.sources, p), ShortcutOffers(env, proj, proj.sources, p);
    WalkSettles(env, proj, proj.sources, p);
    if Escapes(Rel(proj.path, p)) {
      NobodyKeptIff(env, proj, p);
      NothingKeptIff(proj, ws);
    } else if HasMdSuffix(p) && IsFile(env.root, p) {
      ShortcutSettles(env, proj, proj.sources, p);
      OffersRelate(env, proj, proj.sources, p);
      HiddenDispensableIff(env, proj, p);
      SameTakersIff(proj, ws, os);
      SameTakersSameKept(proj, ws, os);
    } else {
      NothingToClaim(env, proj, proj.sources, p);
    }
  }

  /** What is kept of the shortcut's answer is what a rescan keeps of the file, exactly under the guard. */
  lemma KeptAgreeIffExact(env: Env, proj: Project, p: Path)
    requires ProperSources(proj.sources)
    ensures KeptExact(env, proj, p) <==>
      multiset(ScanForms(WithoutManual(proj, Resolved(env, proj, p)))) == multiset(WalkKept(env, proj, p))
  {
    var ws, os := WalkOffers(env, proj, proj.sources, p), ShortcutOffers(env, proj, proj.sources, p);
    WalkSettles(env, proj, proj.sources, p);
    if Escapes(Rel(proj.path, p)) {
      NobodyKeptIff(env, proj, p);
      NothingKeptIff(proj, ws);
      assert Resolved(env, proj, p) == [];
      assert |WalkKept(env, proj, p)| == |multiset(WalkKept(env, proj, p))|;
    } else if HasMdSuffix(p) && IsFile(env.root, p) {
      ShortcutSettles(env, proj, proj.sources, p);
      OffersRelate(env, proj, proj.sources, p);
      OfferedTreesDistinct(env, proj, proj.sources, p);
      HiddenDispensableIff(env, proj, p);
      KeptAgreeIff(proj, ws, os);
    } else {
      NothingToClaim(env, proj, proj.sources, p);
    }
  }

  // ---------------------------------------------------------------------------------------
  // A manual tree over a `.git` directory: harmless alone, not in front of another source

  const MANUAL := Source("m", "tree", Some(["p"]), [], "manual", false)

  const LISTED := Source("l", "files", None, [IN_DOT_GIT], "", true)

  lemma ManualAccepted(proj: Project)
    requires proj.path == ["p"]
    ensures IsFile(DOT_GIT.root, IN_DOT_GIT) && HasMdSuffix(IN_DOT_GIT) && !Escapes(Rel(proj.path, IN_DOT_GIT))
    ensures Accepts(DOT_GIT, MANUAL, IN_DOT_GIT) && !NotHidden(DOT_GIT, MANUAL, IN_DOT_GIT)
    ensures TreeEntry(DOT_GIT, proj, MANUAL, IN_DOT_GIT).Some?
  {
    DotGitFile();
    AcceptsTwoBelow(DOT_GIT, MANUAL, IN_DOT_GIT);
    assert ".git"[..2][1] == 'g';
    RelInProject(IN_DOT_GIT, ".git");
  }

  /** The shortcut lists the file for the manual source and the walk does not, but neither is kept. */
  lemma HiddenManualIsHarmless()
    ensures Disagree(DOT_GIT, MANUAL, IN_DOT_GIT) && KeptExact(DOT_GIT, ProjectOf(MANUAL), IN_DOT_GIT)
  {
    DotGitFile();
    ManualAccepted(ProjectOf(MANUAL));
    HiddenDisagree(DOT_GIT, MANUAL, IN_DOT_GIT);
    assert MANUAL in ProjectOf(MANUAL).sources;
  }

  const SHUT_OUT := Project("p", "", ["p"], [MANUAL, LISTED])

  lemma ListIsNext()
    ensures NextToClaim(DOT_GIT, SHUT_OUT, IN_DOT_GIT, 1, 1)
    ensures IsManual(SHUT_OUT, MANUAL) && !IsManual(SHUT_OUT, LISTED)
  {
    DotGitFile();
    assert SHUT_OUT.sources[1] == LISTED && MANUAL in SHUT_OUT.sources;
    assert "l"[0] == 'l' && "m"[0] == 'm';
  }

  lemma ManualTakesIt()
    ensures Resolved(DOT_GIT, SHUT_OUT, IN_DOT_GIT) == [TreeEntry(DOT_GIT, SHUT_OUT, MANUAL, IN_DOT_GIT).value]
  {
    ManualAccepted(SHUT_OUT);
    var first := [MANUAL];
    assert [MANUAL, LISTED][..1] == first && first[..0] == [];
    assert ResolveClaims(DOT_GIT, SHUT_OUT, first, IN_DOT_GIT).taken;
  }

  /** Before an explicit list, it takes the file from the list, for which a rescan keeps it. */
  lemma HiddenManualShutsOut()
    ensures !KeptExact(DOT_GIT, SHUT_OUT, IN_DOT_GIT)
    ensures WithoutManual(SHUT_OUT, Resolved(DOT_GIT, SHUT_OUT, IN_DOT_GIT)) == []
    ensures WalkKept(DOT_GIT, SHUT_OUT, IN_DOT_GIT) != []
  {
    ManualAccepted(SHUT_OUT);
    ListIsNext();
    assert Hidden(DOT_GIT, SHUT_OUT, IN_DOT_GIT, 0);
    assert !Dispensable(DOT_GIT, SHUT_OUT, IN_DOT_GIT, 0);
    ManualTakesIt();
    KeptAgreeIffExact(DOT_GIT, SHUT_OUT, IN_DOT_GIT);
  }
}
