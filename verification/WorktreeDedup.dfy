/**
 * `deduplicateWorktreeProjects`, apps/penpal/internal/discovery/discovery.go. Paths are clean.
 *
 * A project's list of worktrees is that of the repository its directory is in. The directory need
 * not be one of them: it may be a subdirectory. A project may also be in a list and have none.
 */
module WorktreeDedup {
  import opened Collections

  datatype Worktree = Worktree(path: string, isMain: bool)

  datatype Project = Project(name: string, path: string, worktrees: seq<Worktree>)

  function Paths(ws: seq<Worktree>): seq<string> {
    Map((w: Worktree) => w.path, ws)
  }

  // ---------------------------------------------------------------------------------------
  // Projects as `git worktree list` describes them

  /** Project `j`'s directory is a worktree of project `i`'s repository. */
  ghost predicate Lists(ps: seq<Project>, i: nat, j: nat)
    requires i < |ps| && j < |ps|
  {
    ps[j].path in Paths(ps[i].worktrees)
  }

  /** The projects are in the same repository. */
  ghost predicate SameRepo(ps: seq<Project>, i: nat, j: nat)
    requires i < |ps| && j < |ps|
  {
    && ps[i].worktrees != [] && ps[j].worktrees != []
    && Paths(ps[i].worktrees) == Paths(ps[j].worktrees)
  }

  ghost predicate DistinctPaths(ps: seq<Project>) {
    forall i, j :: 0 <= i < j < |ps| ==> ps[i].path != ps[j].path
  }

  /** The flag is relative to the project, not to the repository. */
  ghost predicate FlagsItself(p: Project) {
    forall k :: 0 <= k < |p.worktrees| ==> (p.worktrees[k].isMain <==> p.worktrees[k].path == p.path)
  }

  /** A worktree's own list, if it was asked for, is the one it is in. */
  ghost predicate Consistent(ps: seq<Project>) {
    && DistinctPaths(ps)
    && (forall i :: 0 <= i < |ps| ==> FlagsItself(ps[i]))
    && (forall i: nat, j: nat ::
          i < |ps| && j < |ps| && Lists(ps, i, j) && ps[j].worktrees != [] ==> SameRepo(ps, i, j))
  }

  /** The project is the repository's first worktree, which git lists first. */
  ghost predicate IsMainWorktree(p: Project) {
    p.worktrees != [] && p.worktrees[0].path == p.path
  }

  ghost predicate MainPresent(ps: seq<Project>, i: nat)
    requires i < |ps|
  {
    exists m: nat :: m < |ps| && SameRepo(ps, i, m) && IsMainWorktree(ps[m])
  }

  ghost predicate FirstOfRepo(ps: seq<Project>, i: nat)
    requires i < |ps|
  {
    forall h: nat :: h < i ==> !SameRepo(ps, i, h)
  }

  // ---------------------------------------------------------------------------------------
  // Who stays

  /** The project speaks for its repository: the main worktree or, without one, the first or an unlisted project. */
  ghost predicate Leads(ps: seq<Project>, i: nat)
    requires i < |ps|
  {
    && ps[i].worktrees != []
    && if MainPresent(ps, i) then IsMainWorktree(ps[i]) else FirstOfRepo(ps, i) || !Lists(ps, i, i)
  }

  ghost predicate YieldsToMain(ps: seq<Project>, j: nat)
    requires j < |ps|
  {
    ps[j].worktrees != [] && MainPresent(ps, j) && !IsMainWorktree(ps[j])
  }

  /** One of the first `n` projects leads a repository of which `j`'s directory is a worktree. */
  ghost predicate Taken(ps: seq<Project>, n: nat, j: nat)
    requires j < |ps|
  {
    exists k: nat :: k < n && k < |ps| && k != j && Leads(ps, k) && Lists(ps, k, j)
  }

  ghost predicate Keeper(ps: seq<Project>, j: nat)
    requires j < |ps|
  {
    !YieldsToMain(ps, j) && !Taken(ps, |ps|, j)
  }

  ghost function Kept(ps: seq<Project>, n: nat): seq<Project>
    requires n <= |ps|
  {
    if n == 0 then [] else Kept(ps, n - 1) + if Keeper(ps, n - 1) then [ps[n - 1]] else []
  }

  // ---------------------------------------------------------------------------------------
  // The code

  ghost predicate IndexOk(ps: seq<Project>, index: map<string, nat>) {
    && (forall path :: path in index <==> exists i :: 0 <= i < |ps| && ps[i].path == path)
    && (forall path :: path in index ==> index[path] < |ps| && ps[index[path]].path == path)
  }

  method IndexPaths(ps: seq<Project>) returns (index: map<string, nat>)
    requires DistinctPaths(ps)
    ensures IndexOk(ps, index)
  {
    index := map[];
    for i := 0 to |ps|
      invariant forall path :: path in index <==> exists k :: 0 <= k < i && ps[k].path == path
      invariant forall path :: path in index ==> index[path] < i && ps[index[path]].path == path
    {
      index := index[ps[i].path := i];
    }
  }

  /** Project `j` has been removed by the time the first `n` projects have had their turn. */
  ghost predicate Gone(ps: seq<Project>, n: nat, j: nat)
    requires j < |ps|
  {
    (j < n && YieldsToMain(ps, j)) || Taken(ps, n, j)
  }

  ghost predicate RemovedBefore(ps: seq<Project>, n: nat, remove: set<nat>) {
    forall j: nat :: j in remove <==> j < |ps| && Gone(ps, n, j)
  }

  /** `remove` is `remove0` with the other projects at the first `t` worktrees of project `i`. */
  ghost predicate Sweeping(ps: seq<Project>, i: nat, t: nat, remove0: set<nat>, remove: set<nat>)
    requires i < |ps| && t <= |ps[i].worktrees|
  {
    forall j: nat :: j in remove <==> j in remove0 || (j < |ps| && j != i && ps[j].path in Paths(ps[i].worktrees)[..t])
  }

  /** The other project at a path, if there is one. */
  ghost function OtherAt(index: map<string, nat>, path: string, i: nat): set<nat> {
    if path in index && index[path] != i then {index[path]} else {}
  }

  /** The inner loop, for a project with worktrees that has not been removed yet. */
  method RemoveDuplicatesOf(ps: seq<Project>, index: map<string, nat>, i: nat, remove0: set<nat>)
    returns (remove: set<nat>)
    requires Consistent(ps) && IndexOk(ps, index) && i < |ps| && i !in remove0 && ps[i].worktrees != []
    requires RemovedBefore(ps, i, remove0)
    ensures RemovedBefore(ps, i + 1, remove)
  {
    remove := remove0;
    var p := ps[i];
    LeadsOrMeetsMain(ps, index, i, remove0);
    StartSweep(ps, i, remove0);
    var t := 0;
    while t < |p.worktrees|
      invariant 0 <= t <= |p.worktrees|
      invariant t > 0 ==> Leads(ps, i)
      invariant Sweeping(ps, i, t, remove0, remove)
    {
      var wt := p.worktrees[t];
      SweepStep(ps, index, i, t, remove0, remove);
      if !wt.isMain && wt.path in index && index[wt.path] !in remove && index[wt.path] != i {
        var j := index[wt.path];
        var iIsMain := |p.worktrees| > 0 && p.worktrees[0].path == p.path;
        if iIsMain {
          remove := remove + {j};
        } else {
          var jIsMain := |ps[j].worktrees| > 0 && ps[j].worktrees[0].path == ps[j].path;
          if jIsMain {
            MainTakesOver(ps, i, t, j, remove0, remove);
            remove := remove + {i};
            return;
          }
          remove := remove + {j};
        }
      }
      t := t + 1;
    }
    SweptAll(ps, i, remove0, remove);
  }

  /** The outer loop. */
  method FindDuplicates(ps: seq<Project>, index: map<string, nat>) returns (remove: set<nat>)
    requires Consistent(ps) && IndexOk(ps, index)
    ensures RemovedBefore(ps, |ps|, remove)
  {
    remove := {};
    for i := 0 to |ps|
      invariant RemovedBefore(ps, i, remove)
    {
      if i !in remove && |ps[i].worktrees| != 0 {
        remove := RemoveDuplicatesOf(ps, index, i, remove);
      } else {
        TurnSkipped(ps, i, remove);
      }
    }
  }

  method DeduplicateWorktreeProjects(ps: seq<Project>) returns (result: seq<Project>)
    requires Consistent(ps)
    ensures result == Kept(ps, |ps|)
  {
    var index := IndexPaths(ps);
    var remove := FindDuplicates(ps, index);
    AllTurnsTaken(ps, remove);
    result := WithoutRemoved(ps, remove);
  }

  method WithoutRemoved(ps: seq<Project>, remove: set<nat>) returns (result: seq<Project>)
    requires forall j: nat :: j < |ps| ==> (Keeper(ps, j) <==> j !in remove)
    ensures result == Kept(ps, |ps|)
  {
    if |remove| == 0 {
      AllKept(ps, |ps|);
      return ps;
    }
    result := [];
    for i := 0 to |ps|
      invariant result == Kept(ps, i)
    {
      if i !in remove {
        result := result + [ps[i]];
      }
    }
  }

  lemma {:induction false} AllKept(ps: seq<Project>, n: nat)
    requires n <= |ps| && forall j: nat :: j < n ==> Keeper(ps, j)
    ensures Kept(ps, n) == ps[..n]
  {
    if n == 0 {
    } else {
      AllKept(ps, n - 1);
    }
  }

  lemma AllTurnsTaken(ps: seq<Project>, remove: set<nat>)
    requires RemovedBefore(ps, |ps|, remove)
    ensures forall j: nat :: j < |ps| ==> (Keeper(ps, j) <==> j !in remove)
  {
    forall j: nat | j < |ps| ensures Keeper(ps, j) <==> j !in remove {
      assert j in remove <==> Gone(ps, |ps|, j);
    }
  }

  // ---------------------------------------------------------------------------------------
  // Repositories

  /** Projects of one repository agree on everything about it. */
  lemma RepoShared(ps: seq<Project>, i: nat, j: nat)
    requires i < |ps| && j < |ps| && SameRepo(ps, i, j)
    ensures forall k: nat :: k < |ps| ==>
      (Lists(ps, i, k) <==> Lists(ps, j, k)) && (SameRepo(ps, i, k) <==> SameRepo(ps, j, k))
    ensures MainPresent(ps, i) <==> MainPresent(ps, j)
    ensures ps[i].worktrees[0].path == ps[j].worktrees[0].path
  {
    assert Paths(ps[i].worktrees)[0] == ps[i].worktrees[0].path;
    assert Paths(ps[j].worktrees)[0] == ps[j].worktrees[0].path;
  }

  lemma OneMain(ps: seq<Project>, i: nat, j: nat)
    requires DistinctPaths(ps) && i < |ps| && j < |ps| && SameRepo(ps, i, j)
    requires IsMainWorktree(ps[i]) && IsMainWorktree(ps[j])
    ensures i == j
  {
    RepoShared(ps, i, j);
    assert ps[i].path == ps[j].path;
  }

  lemma {:induction false} FindFirst(ps: seq<Project>, i: nat, n: nat) returns (k: nat)
    requires n < |ps| && i < |ps| && SameRepo(ps, i, n)
    ensures k <= n && SameRepo(ps, i, k) && FirstOfRepo(ps, k)
    decreases n
  {
    RepoShared(ps, i, n);
    if h: nat :| h < n && SameRepo(ps, n, h) {
      k := FindFirst(ps, i, h);
    } else {
      k := n;
    }
  }

  lemma MainIsNeverGone(ps: seq<Project>, n: nat, m: nat)
    requires Consistent(ps) && m < |ps| && IsMainWorktree(ps[m])
    ensures !Gone(ps, n, m)
  {
    forall k: nat | k < |ps| && k != m && Lists(ps, k, m) ensures !Leads(ps, k) {
      assert SameRepo(ps, k, m);
      assert MainPresent(ps, k);
      if IsMainWorktree(ps[k]) { OneMain(ps, k, m); }
    }
  }

  lemma GoneDoesNotLead(ps: seq<Project>, i: nat)
    requires Consistent(ps) && i < |ps| && Gone(ps, i, i)
    ensures !Leads(ps, i)
  {
    var k: nat :| k < i && Leads(ps, k) && Lists(ps, k, i);
    if ps[i].worktrees != [] {
      assert SameRepo(ps, k, i) && SameRepo(ps, i, k);
      RepoShared(ps, k, i);
      if IsMainWorktree(ps[i]) { MainIsNeverGone(ps, i, i); }
    }
  }

  lemma LeadsOrYields(ps: seq<Project>, i: nat)
    requires i < |ps| && ps[i].worktrees != []
    ensures Gone(ps, i, i) || Leads(ps, i) || YieldsToMain(ps, i)
  {
    if !MainPresent(ps, i) && Lists(ps, i, i) && !FirstOfRepo(ps, i) {
      var k := FindFirst(ps, i, i);
      RepoShared(ps, i, k);
      assert k < i && Leads(ps, k) && Lists(ps, k, i);
    }
  }

  // ---------------------------------------------------------------------------------------
  // One turn

  lemma TurnSkipped(ps: seq<Project>, i: nat, remove: set<nat>)
    requires Consistent(ps) && i < |ps| && RemovedBefore(ps, i, remove) && (i in remove || ps[i].worktrees == [])
    ensures RemovedBefore(ps, i + 1, remove)
  {
    if i in remove { GoneDoesNotLead(ps, i); }
    forall j: nat | j < |ps| ensures Gone(ps, i + 1, j) <==> Gone(ps, i, j) {
      NextTurn(ps, i, j);
    }
  }

  lemma NextTurn(ps: seq<Project>, i: nat, j: nat)
    requires i < |ps| && j < |ps|
    ensures Taken(ps, i + 1, j) <==> Taken(ps, i, j) || (i != j && Leads(ps, i) && Lists(ps, i, j))
  {
  }

  /** A project that yields finds the main worktree first, and it is still there. */
  ghost predicate MeetsMain(ps: seq<Project>, index: map<string, nat>, i: nat, remove: set<nat>)
    requires i < |ps| && ps[i].worktrees != []
  {
    var wt := ps[i].worktrees[0];
    && !wt.isMain && !IsMainWorktree(ps[i])
    && wt.path in index && index[wt.path] < |ps| && index[wt.path] !in remove && index[wt.path] != i
    && IsMainWorktree(ps[index[wt.path]])
  }

  lemma LeadsOrMeetsMain(ps: seq<Project>, index: map<string, nat>, i: nat, remove: set<nat>)
    requires Consistent(ps) && IndexOk(ps, index) && i < |ps| && i !in remove && ps[i].worktrees != []
    requires RemovedBefore(ps, i, remove)
    ensures Leads(ps, i) || MeetsMain(ps, index, i, remove)
  {
    assert !Gone(ps, i, i);
    LeadsOrYields(ps, i);
    if YieldsToMain(ps, i) {
      var m: nat :| m < |ps| && SameRepo(ps, i, m) && IsMainWorktree(ps[m]);
      RepoShared(ps, i, m);
      MainIsNeverGone(ps, i, m);
      assert FlagsItself(ps[i]);
      assert ps[m].path == ps[i].worktrees[0].path;
      assert index[ps[m].path] == m;
    }
  }

  lemma StartSweep(ps: seq<Project>, i: nat, remove: set<nat>)
    requires i < |ps|
    ensures Sweeping(ps, i, 0, remove, remove)
  {
  }

  lemma SweepStep(ps: seq<Project>, index: map<string, nat>, i: nat, t: nat, remove0: set<nat>, remove: set<nat>)
    requires Consistent(ps) && IndexOk(ps, index) && i < |ps| && t < |ps[i].worktrees|
    requires Sweeping(ps, i, t, remove0, remove)
    ensures Sweeping(ps, i, t + 1, remove0, remove + OtherAt(index, ps[i].worktrees[t].path, i))
    ensures ps[i].worktrees[t].isMain ==> OtherAt(index, ps[i].worktrees[t].path, i) == {}
  {
    var path := ps[i].worktrees[t].path;
    var all := Paths(ps[i].worktrees);
    assert all[..t + 1] == all[..t] + [path];
    assert FlagsItself(ps[i]);
    forall j: nat | j < |ps| && j != i ensures ps[j].path == path <==> j in OtherAt(index, path, i) {
    }
  }

  /** The one way out of the loop, which only the first worktree can take. */
  lemma MainTakesOver(ps: seq<Project>, i: nat, t: nat, j: nat, remove0: set<nat>, remove: set<nat>)
    requires Consistent(ps) && i < |ps| && j < |ps| && t < |ps[i].worktrees| && RemovedBefore(ps, i, remove0)
    requires ps[j].path == ps[i].worktrees[t].path && IsMainWorktree(ps[j]) && !IsMainWorktree(ps[i])
    requires t > 0 ==> Leads(ps, i)
    requires Sweeping(ps, i, t, remove0, remove)
    ensures RemovedBefore(ps, i + 1, remove + {i})
  {
    assert Paths(ps[i].worktrees)[t] == ps[j].path;
    assert SameRepo(ps, i, j);
    assert MainPresent(ps, i) && YieldsToMain(ps, i) && !Leads(ps, i);
    assert remove == remove0;
    forall x: nat | x < |ps| ensures Gone(ps, i + 1, x) <==> Gone(ps, i, x) || x == i {
      NextTurn(ps, i, x);
    }
  }

  /** A leader's turn removes the rest of its repository's worktrees. */
  lemma SweptAll(ps: seq<Project>, i: nat, remove0: set<nat>, remove: set<nat>)
    requires i < |ps| && Leads(ps, i) && RemovedBefore(ps, i, remove0)
    requires Sweeping(ps, i, |ps[i].worktrees|, remove0, remove)
    ensures RemovedBefore(ps, i + 1, remove)
  {
    var all := Paths(ps[i].worktrees);
    assert all[..|all|] == all;
    forall j: nat | j < |ps| ensures Gone(ps, i + 1, j) <==> Gone(ps, i, j) || (j != i && ps[j].path in all) {
      NextTurn(ps, i, j);
    }
  }

  // ---------------------------------------------------------------------------------------
  // How many stay

  /** Project `k` belongs to project `i`'s repository, in it or as a worktree of it. */
  ghost predicate OfRepo(ps: seq<Project>, i: nat, k: nat)
    requires i < |ps| && k < |ps|
  {
    SameRepo(ps, i, k) || Lists(ps, i, k)
  }

  /** A project in the repository whose own directory is none of its worktrees. */
  ghost predicate Unlisted(ps: seq<Project>, i: nat, u: nat)
    requires i < |ps| && u < |ps|
  {
    SameRepo(ps, i, u) && !Lists(ps, u, u)
  }

  lemma OfSharedRepo(ps: seq<Project>, i: nat, k: nat)
    requires Consistent(ps) && i < |ps| && k < |ps|
    requires ps[i].worktrees != [] && ps[k].worktrees != [] && OfRepo(ps, i, k)
    ensures SameRepo(ps, i, k) && SameRepo(ps, k, i)
  {
  }

  /** Every repository has a leader that stays, unless an unlisted project takes its first one's place. */
  lemma LeaderStays(ps: seq<Project>, i: nat) returns (k: nat)
    requires Consistent(ps) && i < |ps| && ps[i].worktrees != []
    ensures k < |ps| && SameRepo(ps, i, k) && Leads(ps, k) && Keeper(ps, k)
    ensures MainPresent(ps, i) ==> IsMainWorktree(ps[k])
    ensures !MainPresent(ps, i) ==> Unlisted(ps, i, k) || FirstOfRepo(ps, k)
  {
    if MainPresent(ps, i) {
      k :| k < |ps| && SameRepo(ps, i, k) && IsMainWorktree(ps[k]);
      MainIsNeverGone(ps, |ps|, k);
      RepoShared(ps, i, k);
    } else if u: nat :| u < |ps| && Unlisted(ps, i, u) {
      k := u;
      RepoShared(ps, i, k);
      UnlistedStays(ps, k);
    } else {
      k := FindFirst(ps, i, i);
      RepoShared(ps, i, k);
      forall l: nat | l < |ps| && l != k && Lists(ps, l, k) ensures !Leads(ps, l) {
        FirstIsOnlyLeader(ps, i, k, l);
      }
    }
  }

  lemma UnlistedStays(ps: seq<Project>, u: nat)
    requires Consistent(ps) && u < |ps| && ps[u].worktrees != [] && !MainPresent(ps, u) && !Lists(ps, u, u)
    ensures Leads(ps, u) && Keeper(ps, u)
  {
    forall k: nat | k < |ps| && Leads(ps, k) ensures !Lists(ps, k, u) {
      assert SameRepo(ps, k, u) ==> (Lists(ps, k, u) <==> Lists(ps, u, u));
    }
  }

  /** Without a main worktree and unlisted projects, only the first project leads. */
  lemma FirstIsOnlyLeader(ps: seq<Project>, i: nat, k: nat, l: nat)
    requires Consistent(ps) && i < |ps| && k < |ps| && l < |ps|
    requires SameRepo(ps, i, k) && FirstOfRepo(ps, k) && !MainPresent(ps, i) && Lists(ps, l, k) && l != k
    requires forall u: nat :: u < |ps| ==> !Unlisted(ps, i, u)
    ensures !Leads(ps, l)
  {
    if ps[l].worktrees != [] {
      assert SameRepo(ps, l, k) && SameRepo(ps, k, l) && SameRepo(ps, i, l);
      RepoShared(ps, i, l);
      assert !Unlisted(ps, i, l);
      assert k < l;
    }
  }

  lemma GoneStaysGone(ps: seq<Project>, n: nat, k: nat)
    requires n <= |ps| && k < |ps| && Gone(ps, n, k)
    ensures Gone(ps, |ps|, k)
  {
    if Taken(ps, n, k) {
      var l: nat :| l < n && l < |ps| && l != k && Leads(ps, l) && Lists(ps, l, k);
    }
  }

  /** A directory without a list of its own goes if it is a worktree of some project's repository. */
  lemma ListlessGoes(ps: seq<Project>, i: nat, k: nat)
    requires Consistent(ps) && i < |ps| && k < |ps| && ps[i].worktrees != [] && ps[k].worktrees == [] && Lists(ps, i, k)
    ensures !Keeper(ps, k)
  {
    var l := LeaderStays(ps, i);
    RepoShared(ps, i, l);
  }

  /** A project of the repository that stays leads it. */
  lemma KeeperLeads(ps: seq<Project>, i: nat, k: nat)
    requires Consistent(ps) && i < |ps| && k < |ps| && ps[i].worktrees != [] && OfRepo(ps, i, k)
    ensures Keeper(ps, k) ==> SameRepo(ps, i, k) && Leads(ps, k)
  {
    if ps[k].worktrees == [] {
      ListlessGoes(ps, i, k);
    } else {
      OfSharedRepo(ps, i, k);
      LeadsOrYields(ps, k);
      if Gone(ps, k, k) { GoneStaysGone(ps, k, k); }
    }
  }

  /** `k` is the only project of the repository that stays. */
  ghost predicate SoleSurvivor(ps: seq<Project>, i: nat, k: nat)
    requires i < |ps|
  {
    && k < |ps| && OfRepo(ps, i, k) && Keeper(ps, k)
    && forall j: nat :: j < |ps| && OfRepo(ps, i, j) && Keeper(ps, j) ==> j == k
  }

  ghost predicate AtMostOneUnlisted(ps: seq<Project>, i: nat)
    requires i < |ps|
  {
    forall u: nat, v: nat :: u < |ps| && v < |ps| && Unlisted(ps, i, u) && Unlisted(ps, i, v) ==> u == v
  }

  /**
   * Each repository keeps at least one project; it keeps exactly one iff its main worktree is a
   * project or at most one project is in it without being a worktree.
   */
  lemma OneSurvivorIff(ps: seq<Project>, i: nat)
    requires Consistent(ps) && i < |ps| && ps[i].worktrees != []
    ensures exists k: nat :: k < |ps| && SameRepo(ps, i, k) && Keeper(ps, k)
    ensures (exists k :: SoleSurvivor(ps, i, k)) <==> MainPresent(ps, i) || AtMostOneUnlisted(ps, i)
  {
    var k := LeaderStays(ps, i);
    if MainPresent(ps, i) || AtMostOneUnlisted(ps, i) {
      forall j: nat | j < |ps| && OfRepo(ps, i, j) && Keeper(ps, j) ensures j == k {
        KeeperLeads(ps, i, j);
        TwoLeaders(ps, i, j, k);
      }
      assert SoleSurvivor(ps, i, k);
    } else {
      var u: nat, v: nat :| u < |ps| && v < |ps| && Unlisted(ps, i, u) && Unlisted(ps, i, v) && u != v;
      RepoShared(ps, i, u);
      RepoShared(ps, i, v);
      UnlistedStays(ps, u);
      UnlistedStays(ps, v);
    }
  }

  /** Two projects of a repository that stay are both unlisted, if they are two. */
  lemma TwoLeaders(ps: seq<Project>, i: nat, j: nat, k: nat)
    requires Consistent(ps) && i < |ps| && j < |ps| && k < |ps|
    requires SameRepo(ps, i, j) && SameRepo(ps, i, k) && Leads(ps, j) && Leads(ps, k) && Keeper(ps, j) && Keeper(ps, k)
    ensures j == k || (!MainPresent(ps, i) && Unlisted(ps, i, j) && Unlisted(ps, i, k))
  {
    RepoShared(ps, i, j);
    RepoShared(ps, i, k);
    if MainPresent(ps, i) {
      OneMain(ps, j, k);
    } else if j != k {
      assert !Lists(ps, j, k) && !Lists(ps, k, j);
    }
  }

  /** A directory without worktrees stays iff it is a worktree of no other project's repository. */
  lemma ListlessStaysIff(ps: seq<Project>, j: nat)
    requires Consistent(ps) && j < |ps| && ps[j].worktrees == []
    ensures Keeper(ps, j) <==> forall i: nat :: i < |ps| ==> !Lists(ps, i, j)
  {
    if i: nat :| i < |ps| && Lists(ps, i, j) {
      ListlessGoes(ps, i, j);
    }
  }

  /** Where every project is a worktree: the main worktree stays or, if it is no project, the first. */
  lemma KeeperIffMainOrFirst(ps: seq<Project>, i: nat)
    requires Consistent(ps) && i < |ps| && ps[i].worktrees != []
    requires forall u: nat :: u < |ps| ==> !Unlisted(ps, i, u)
    ensures Keeper(ps, i) <==> if MainPresent(ps, i) then IsMainWorktree(ps[i]) else FirstOfRepo(ps, i)
  {
    assert SameRepo(ps, i, i) && !Unlisted(ps, i, i);
    KeeperLeads(ps, i, i);
    if IsMainWorktree(ps[i]) {
      MainIsNeverGone(ps, |ps|, i);
    } else if !MainPresent(ps, i) && FirstOfRepo(ps, i) {
      forall l: nat | l < |ps| && l != i && Lists(ps, l, i) ensures !Leads(ps, l) {
        FirstIsOnlyLeader(ps, i, i, l);
      }
    }
  }

  // ---------------------------------------------------------------------------------------
  // The first alphabetically

  /** Byte by byte, as file names are ordered when a directory is read. */
  predicate PathLeq(a: string, b: string) {
    a == "" || (b != "" && (a[0] < b[0] || (a[0] == b[0] && PathLeq(a[1..], b[1..]))))
  }

  lemma {:induction false} PathLeqSelf(a: string)
    ensures PathLeq(a, a)
  {
    if a == "" {
    } else {
      PathLeqSelf(a[1..]);
    }
  }

  /** A repository of which neither the main worktree nor a subdirectory is a project. */
  ghost predicate WorktreesOnly(ps: seq<Project>, i: nat)
    requires i < |ps|
  {
    ps[i].worktrees != [] && !MainPresent(ps, i) && forall u: nat :: u < |ps| ==> !Unlisted(ps, i, u)
  }

  /** The documented choice for such a repository: the alphabetically first project. */
  ghost predicate KeepsFirstByPath(ps: seq<Project>) {
    forall i: nat, k: nat, j: nat ::
      i < |ps| && k < |ps| && j < |ps| && WorktreesOnly(ps, i) && KeptInRepo(ps, i, k) && SameRepo(ps, i, j) ==>
        PathLeq(ps[k].path, ps[j].path)
  }

  ghost predicate KeptInRepo(ps: seq<Project>, i: nat, k: nat)
    requires i < |ps| && k < |ps|
  {
    SameRepo(ps, i, k) && Keeper(ps, k)
  }

  /** In each such repository the project that comes first in the list comes first by path. */
  ghost predicate FirstsLeadByPath(ps: seq<Project>) {
    forall k: nat, j: nat ::
      k < j < |ps| && WorktreesOnly(ps, k) && FirstOfRepo(ps, k) && SameRepo(ps, k, j) ==>
        PathLeq(ps[k].path, ps[j].path)
  }

  ghost predicate SortedByPath(ps: seq<Project>) {
    forall i, j :: 0 <= i < j < |ps| && ps[i].worktrees != [] && ps[j].worktrees != [] ==>
      PathLeq(ps[i].path, ps[j].path)
  }

  /** The code keeps the lowest index, which is the documented choice iff the list has the firsts in front. */
  lemma KeepsFirstByPathIff(ps: seq<Project>)
    requires Consistent(ps)
    ensures KeepsFirstByPath(ps) <==> FirstsLeadByPath(ps)
    ensures SortedByPath(ps) ==> FirstsLeadByPath(ps)
  {
    if FirstsLeadByPath(ps) {
      forall i: nat, k: nat, j: nat |
        i < |ps| && k < |ps| && j < |ps| && WorktreesOnly(ps, i) && KeptInRepo(ps, i, k) && SameRepo(ps, i, j)
        ensures PathLeq(ps[k].path, ps[j].path)
      {
        SharedWorktreesOnly(ps, i, k);
        KeeperIffMainOrFirst(ps, k);
        if k == j { PathLeqSelf(ps[k].path); } else { assert SameRepo(ps, k, j); }
      }
    }
    if KeepsFirstByPath(ps) {
      forall k: nat, j: nat | k < j < |ps| && WorktreesOnly(ps, k) && FirstOfRepo(ps, k) && SameRepo(ps, k, j)
        ensures PathLeq(ps[k].path, ps[j].path)
      {
        KeeperIffMainOrFirst(ps, k);
        assert KeptInRepo(ps, k, k);
      }
    }
  }

  lemma SharedWorktreesOnly(ps: seq<Project>, i: nat, k: nat)
    requires i < |ps| && k < |ps| && WorktreesOnly(ps, i) && SameRepo(ps, i, k)
    ensures WorktreesOnly(ps, k)
  {
    RepoShared(ps, i, k);
    forall u: nat | u < |ps| ensures !Unlisted(ps, k, u) {
      assert !Unlisted(ps, i, u);
    }
  }

  // ---------------------------------------------------------------------------------------
  // Inputs at which a promise fails

  function ProjectAt(path: string, worktrees: seq<string>): Project {
    Project(path, path, Map((w: string) => Worktree(w, w == path), worktrees))
  }

  lemma PathsOfProjectAt(path: string, worktrees: seq<string>)
    ensures Paths(ProjectAt(path, worktrees).worktrees) == worktrees && FlagsItself(ProjectAt(path, worktrees))
  {
  }

  function UnsortedProjects(): seq<Project> {
    [ProjectAt("b", ["m", "b", "a"]), ProjectAt("a", ["m", "b", "a"])]
  }

  lemma UnsortedRepo()
    ensures var ps := UnsortedProjects();
      && Consistent(ps) && SameRepo(ps, 0, 1) && Lists(ps, 0, 0) && Lists(ps, 0, 1)
      && !IsMainWorktree(ps[0]) && !IsMainWorktree(ps[1])
  {
    var list := ["m", "b", "a"];
    var ps := UnsortedProjects();
    PathsOfProjectAt("b", list);
    PathsOfProjectAt("a", list);
    assert list[0] == "m" && list[1] == "b" && list[2] == "a";
    assert "m"[0] == 'm' && "b"[0] == 'b' && "a"[0] == 'a';
    assert ps[0].worktrees[0].path == "m" && ps[1].worktrees[0].path == "m";
  }

  /** Two worktrees of a repository elsewhere, not in path order: the later path stays. */
  lemma UnsortedCounterexample()
    ensures Consistent(UnsortedProjects()) && !KeepsFirstByPath(UnsortedProjects())
  {
    var ps := UnsortedProjects();
    UnsortedRepo();
    RepoShared(ps, 0, 1);
    assert WorktreesOnly(ps, 0);
    assert FirstOfRepo(ps, 0);
    assert ps[0].path == "b" && ps[1].path == "a" && "b"[0] == 'b' && "a"[0] == 'a';
    KeepsFirstByPathIff(ps);
  }

  /** A workspace inside a repository with another worktree: two subdirectories both stay. */
  lemma SubdirectoriesCounterexample()
    ensures var ps := [ProjectAt("ws/a", ["ws", "x"]), ProjectAt("ws/b", ["ws", "x"])];
      Consistent(ps) && SameRepo(ps, 0, 1) && !exists k :: SoleSurvivor(ps, 0, k)
  {
    var list := ["ws", "x"];
    var ps := [ProjectAt("ws/a", list), ProjectAt("ws/b", list)];
    PathsOfProjectAt("ws/a", list);
    PathsOfProjectAt("ws/b", list);
    assert |"ws/a"| == |"ws/b"| == 4 && "ws/a"[3] == 'a' && "ws/b"[3] == 'b';
    assert ps[0].worktrees[0].path == "ws" && ps[1].worktrees[0].path == "ws";
    assert Unlisted(ps, 0, 0) && Unlisted(ps, 0, 1);
    OneSurvivorIff(ps, 0);
  }

  /** There, the workspace's own root project goes, although it has no worktrees. */
  lemma RootCounterexample()
    ensures var ps := [ProjectAt("ws/a", ["ws", "x"]), ProjectAt("ws", [])];
      Consistent(ps) && !Keeper(ps, 1)
  {
    var list := ["ws", "x"];
    var ps := [ProjectAt("ws/a", list), ProjectAt("ws", [])];
    PathsOfProjectAt("ws/a", list);
    assert |"ws/a"| == 4 && |"ws"| == 2 && |"x"| == 1;
    assert list[0] == "ws" && Lists(ps, 0, 1);
    ListlessStaysIff(ps, 1);
  }
}
