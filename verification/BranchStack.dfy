/** The two walks over a stack of branches, apps/differ/src-tauri/src/lib.rs. */
module BranchStack {
  import opened Collections

  /** One member of the `gt state` object; a missing or ill-typed "ref" is None. */
  datatype Branch = Branch(name: string, trunk: bool, parents: Option<seq<Option<string>>>)

  /** The object's members, in its iteration order. */
  type State = seq<Branch>

  datatype StackBranchInfo = StackBranchInfo(name: string, parentRef: string)

  ghost predicate DistinctNames(state: State) {
    forall i, j :: 0 <= i < j < |state| ==> state[i].name != state[j].name
  }

  function Get(state: State, name: string): (b: Option<Branch>)
    ensures b.Some? ==> b.value in state && b.value.name == name
    ensures b == None ==> forall x :: x in state ==> x.name != name
  {
    if state == [] then None
    else if state[0].name == name then Some(state[0])
    else Get(state[1..], name)
  }

  lemma GetOf(state: State, b: Branch)
    requires DistinctNames(state) && b in state
    ensures Get(state, b.name) == Some(b)
  {
    var found := Get(state, b.name).value;
    var i :| 0 <= i < |state| && state[i] == b;
    var j :| 0 <= j < |state| && state[j] == found;
    assert i == j;
  }

  function FirstParent(b: Branch): Option<string> {
    if b.parents.Some? && b.parents.value != [] then b.parents.value[0] else None
  }

  /** Walking up from `name` goes on to this branch: it is known, not trunk, and names a parent. */
  function StepDown(state: State, name: string): Option<string> {
    match Get(state, name)
    case None => None
    case Some(b) => if b.trunk then None else FirstParent(b)
  }

  ghost predicate HasParent(b: Branch, p: string) {
    b.parents.Some? && Some(p) in b.parents.value
  }

  /** Acyclic: every non-trunk branch can be ranked above its parents. */
  ghost predicate RankedBy(state: State, rank: map<string, nat>) {
    forall b, p :: b in state && !b.trunk && HasParent(b, p) && Get(state, p).Some? ==>
      b.name in rank && p in rank && rank[p] < rank[b.name]
  }

  ghost predicate Acyclic(state: State) {
    exists rank :: RankedBy(state, rank)
  }

  ghost predicate SingleParents(state: State) {
    forall b :: b in state && b.parents.Some? ==> |b.parents.value| <= 1
  }

  // ---------------------------------------------------------------------------------------
  // Down the stack

  /** `x` is reached from `start` by following `n` parent links through non-trunk branches. */
  ghost function Down(state: State, start: string, n: nat): Option<string>
    decreases n
  {
    if n == 0 then Some(start) else
      match StepDown(state, start)
      case None => None
      case Some(p) => Down(state, p, n - 1)
  }

  function Info(state: State, name: string): StackBranchInfo
    requires StepDown(state, name).Some?
  {
    StackBranchInfo(name, StepDown(state, name).value)
  }

  /** `r` lists the non-trunk branches with a parent on the way from `start` to the trunk, nearest first. */
  ghost predicate DownstackFrom(state: State, start: string, r: seq<StackBranchInfo>) {
    && (forall i :: 0 <= i < |r| ==>
          Down(state, start, i) == Some(r[i].name) && StepDown(state, r[i].name) == Some(r[i].parentRef))
    && Down(state, start, |r|).Some? && Down(state, start, |r| + 1) == None
  }

  lemma {:induction false} DownExtend(state: State, start: string, n: nat)
    requires Down(state, start, n).Some?
    ensures Down(state, start, n + 1) == StepDown(state, Down(state, start, n).value)
    decreases n
  {
    if n == 0 {
    } else {
      DownExtend(state, StepDown(state, start).value, n - 1);
    }
  }

  /** What is left to walk: nothing for a branch from which the walk stops. */
  ghost function RankOf(state: State, rank: map<string, nat>, name: string): nat {
    if Get(state, name).Some? && name in rank then rank[name] + 1 else 0
  }

  lemma StepLowersRank(state: State, rank: map<string, nat>, name: string)
    requires RankedBy(state, rank) && StepDown(state, name).Some?
    ensures var p := StepDown(state, name).value;
      StepDown(state, p).Some? ==> RankOf(state, rank, p) < RankOf(state, rank, name)
  {
    assert HasParent(Get(state, name).value, StepDown(state, name).value);
  }

  method WalkDownstack(state: State, startRef: string) returns (result: seq<StackBranchInfo>)
    requires Acyclic(state)
    ensures DownstackFrom(state, startRef, result)
  {
    ghost var rank :| RankedBy(state, rank);
    result := [];
    var current := startRef;
    while StepDown(state, current).Some?
      invariant Down(state, startRef, |result|) == Some(current)
      invariant forall i :: 0 <= i < |result| ==>
        Down(state, startRef, i) == Some(result[i].name) && StepDown(state, result[i].name) == Some(result[i].parentRef)
      decreases StepDown(state, current).Some?, RankOf(state, rank, current)
    {
      DownExtend(state, startRef, |result|);
      StepLowersRank(state, rank, current);
      var parentRef := StepDown(state, current).value;
      result := result + [StackBranchInfo(current, parentRef)];
      current := parentRef;
    }
    DownExtend(state, startRef, |result|);
  }

  // ---------------------------------------------------------------------------------------
  // Up the stack

  /** One branch's links into the current level, one for each matching parent. */
  function LinksOf(b: Branch, current: seq<string>): seq<StackBranchInfo> {
    if b.trunk || b.parents == None then [] else LinksIn(b.name, b.parents.value, current)
  }

  function LinksIn(name: string, parents: seq<Option<string>>, current: seq<string>): seq<StackBranchInfo> {
    if parents == [] then [] else
      LinksIn(name, parents[..|parents| - 1], current) +
      match parents[|parents| - 1]
      case None => []
      case Some(p) => if p in current then [StackBranchInfo(name, p)] else []
  }

  /** One pass over the state: the children of the current branches. */
  function NextLevel(state: State, current: seq<string>): seq<StackBranchInfo> {
    if state == [] then [] else
      NextLevel(state[..|state| - 1], current) + LinksOf(state[|state| - 1], current)
  }

  function Names(links: seq<StackBranchInfo>): seq<string> {
    Map((l: StackBranchInfo) => l.name, links)
  }

  /** The names `n` steps above `branch`, as the walk visits them. */
  function Level(state: State, branch: string, n: nat): seq<string> {
    if n == 0 then [branch] else Names(NextLevel(state, Level(state, branch, n - 1)))
  }

  /** The links into the first `n` levels. */
  function Links(state: State, branch: string, n: nat): seq<StackBranchInfo> {
    if n == 0 then [] else Links(state, branch, n - 1) + NextLevel(state, Level(state, branch, n - 1))
  }

  ghost predicate UpstackOf(state: State, branch: string, r: seq<StackBranchInfo>) {
    exists n: nat :: Level(state, branch, n + 1) == [] && r == Links(state, branch, n)
  }

  /** A non-trunk branch `x` names `p` as a parent. */
  ghost predicate Child(state: State, x: string, p: string) {
    exists b :: b in state && b.name == x && !b.trunk && HasParent(b, p)
  }

  lemma ChildOfMore(init: State, b: Branch, x: string, p: string)
    ensures Child(init + [b], x, p) <==> Child(init, x, p) || (b.name == x && !b.trunk && HasParent(b, p))
  {
    var state := init + [b];
    if Child(init, x, p) {
      var c :| c in init && c.name == x && !c.trunk && HasParent(c, p);
      assert c in state;
    }
    assert b in state;
  }

  lemma {:induction false} NextLevelMembers(state: State, current: seq<string>, l: StackBranchInfo)
    ensures l in NextLevel(state, current) <==> Child(state, l.name, l.parentRef) && l.parentRef in current
    decreases state
  {
    if state == [] {
    } else {
      var init, b := state[..|state| - 1], state[|state| - 1];
      assert state == init + [b];
      NextLevelMembers(init, current, l);
      ChildOfMore(init, b, l.name, l.parentRef);
      if b.parents.Some? { LinksInMembers(b.name, b.parents.value, current, l); }
    }
  }

  lemma {:induction false} LinksInMembers(name: string, parents: seq<Option<string>>, current: seq<string>,
                                          l: StackBranchInfo)
    ensures l in LinksIn(name, parents, current) <==>
      l.name == name && Some(l.parentRef) in parents && l.parentRef in current
    decreases parents
  {
    if parents == [] {
    } else {
      var init := parents[..|parents| - 1];
      assert parents == init + [parents[|parents| - 1]];
      LinksInMembers(name, init, current, l);
    }
  }

  ghost predicate Bounded(rank: map<string, nat>, m: nat) {
    forall x :: x in rank ==> rank[x] <= m
  }

  lemma MaxRank(rank: map<string, nat>) returns (m: nat)
    ensures Bounded(rank, m)
    decreases |rank|
  {
    if rank == map[] {
      m := 0;
    } else {
      var x :| x in rank;
      var rest := rank - {x};
      m := MaxRank(rest);
      forall y | y in rank && y != x ensures rank[y] <= m { assert y in rest && rest[y] == rank[y]; }
      m := if m < rank[x] then rank[x] else m;
    }
  }

  /** Branches `n` steps up rank at least `n - 1`. */
  lemma {:induction false} LevelsRise(state: State, rank: map<string, nat>, branch: string, n: nat, x: string)
    requires DistinctNames(state) && RankedBy(state, rank) && n > 1 && x in Level(state, branch, n)
    ensures x in rank && rank[x] >= n - 1
    decreases n
  {
    var links := NextLevel(state, Level(state, branch, n - 1));
    var i :| 0 <= i < |links| && Names(links)[i] == x;
    NextLevelMembers(state, Level(state, branch, n - 1), links[i]);
    var b :| b in state && b.name == x && !b.trunk && HasParent(b, links[i].parentRef);
    var p := links[i].parentRef;
    LevelInState(state, branch, n - 1, p);
    if n > 2 { LevelsRise(state, rank, branch, n - 1, p); }
  }

  lemma LevelInState(state: State, branch: string, n: nat, x: string)
    requires n > 0 && x in Level(state, branch, n)
    ensures Get(state, x).Some?
  {
    var links := NextLevel(state, Level(state, branch, n - 1));
    var i :| 0 <= i < |links| && Names(links)[i] == x;
    NextLevelMembers(state, Level(state, branch, n - 1), links[i]);
  }

  /** The innermost loop, over one branch's parents. */
  method AddLinks(was: seq<StackBranchInfo>, name: string, parents: seq<Option<string>>, current: seq<string>)
    returns (links: seq<StackBranchInfo>)
    ensures links == was + LinksIn(name, parents, current)
  {
    links := was;
    assert was + [] == was;
    for j := 0 to |parents|
      invariant links == was + LinksIn(name, parents[..j], current)
    {
      assert parents[..j + 1][..j] == parents[..j];
      ghost var found := LinksIn(name, parents[..j], current);
      assert found + [] == found;
      if parents[j].Some? {
        var parentRef := parents[j].value;
        if parentRef in current {
          links := links + [StackBranchInfo(name, parentRef)];
        }
      }
    }
    assert parents[..|parents|] == parents;
  }

  method PassOver(state: State, current: seq<string>) returns (links: seq<StackBranchInfo>)
    ensures links == NextLevel(state, current)
  {
    links := [];
    for i := 0 to |state|
      invariant links == NextLevel(state[..i], current)
    {
      assert state[..i + 1][..i] == state[..i];
      var b := state[i];
      if !b.trunk && b.parents.Some? {
        links := AddLinks(links, b.name, b.parents.value, current);
      } else {
        assert links + [] == links;
      }
    }
    assert state[..|state|] == state;
  }

  /** What `n` passes leave: the level they reach and the links into the levels before. */
  ghost predicate Passed(state: State, branch: string, n: nat, current: seq<string>, found: seq<StackBranchInfo>) {
    current == Level(state, branch, n) && found == Links(state, branch, n)
  }

  lemma OnePass(state: State, branch: string, n: nat, current: seq<string>, found: seq<StackBranchInfo>)
    requires Passed(state, branch, n, current, found)
    ensures var links := NextLevel(state, current);
      && Passed(state, branch, n + 1, Names(links), found + links)
      && (Names(links) == [] ==> UpstackOf(state, branch, found + links))
  {
    var links := NextLevel(state, current);
    if Names(links) == [] {
      assert links == [] && found + links == found;
    }
  }

  lemma LevelsAreFew(state: State, rank: map<string, nat>, m: nat, branch: string, n: nat,
                     current: seq<string>, found: seq<StackBranchInfo>)
    requires DistinctNames(state) && RankedBy(state, rank) && Bounded(rank, m)
    requires Passed(state, branch, n, current, found) && current != []
    ensures n <= m + 1
  {
    if n > 1 {
      LevelsRise(state, rank, branch, n, current[0]);
    }
  }

  method WalkUpstack(state: State, branch: string) returns (result: seq<StackBranchInfo>)
    requires DistinctNames(state) && Acyclic(state)
    ensures UpstackOf(state, branch, result)
  {
    ghost var rank :| RankedBy(state, rank);
    ghost var m := MaxRank(rank);
    ghost var n: nat := 0;
    result := [];
    var currentBranches := [branch];
    while true
      invariant Passed(state, branch, n, currentBranches, result) && currentBranches != []
      decreases m + 1 - n
    {
      LevelsAreFew(state, rank, m, branch, n, currentBranches, result);
      OnePass(state, branch, n, currentBranches, result);
      var links := PassOver(state, currentBranches);
      result := result + links;
      var nextBranches := Names(links);
      if |nextBranches| == 0 {
        break;
      }
      currentBranches := nextBranches;
      n := n + 1;
    }
  }

  // ---------------------------------------------------------------------------------------
  // How the two walks are related

  lemma {:induction false} DownCompose(state: State, x: string, n: nat, m: nat)
    requires Down(state, x, n).Some?
    ensures Down(state, x, n + m) == Down(state, Down(state, x, n).value, m)
    decreases n
  {
    if n == 0 {
    } else {
      DownCompose(state, StepDown(state, x).value, n - 1, m);
    }
  }

  lemma DownStops(state: State, x: string, n: nat, m: nat)
    requires Down(state, x, n + m).Some?
    ensures Down(state, x, n).Some?
  {
    if Down(state, x, n) == None { DownStaysNone(state, x, n, m); }
  }

  lemma {:induction false} DownStaysNone(state: State, x: string, n: nat, m: nat)
    requires Down(state, x, n) == None
    ensures Down(state, x, n + m) == None
    decreases n
  {
    if StepDown(state, x).Some? && n > 0 { DownStaysNone(state, StepDown(state, x).value, n - 1, m); }
  }

  /** A branch with one parent links to it exactly if the walk down would follow it. */
  lemma SingleParentStep(state: State, x: string, p: string)
    requires DistinctNames(state) && SingleParents(state)
    ensures StepDown(state, x) == Some(p) <==> Child(state, x, p)
  {
    if b :| b in state && b.name == x && !b.trunk && HasParent(b, p) {
      GetOf(state, b);
    }
  }

  lemma NameMembers(links: seq<StackBranchInfo>, x: string)
    ensures x in Names(links) <==> exists l :: l in links && l.name == x
  {
    if x in Names(links) {
      var i :| 0 <= i < |links| && Names(links)[i] == x;
      assert links[i] in links;
    }
    if l :| l in links && l.name == x {
      var i :| 0 <= i < |links| && links[i] == l;
      assert Names(links)[i] == x;
    }
  }

  lemma LinkMembers(state: State, current: seq<string>, l: StackBranchInfo)
    requires DistinctNames(state) && SingleParents(state)
    ensures l in NextLevel(state, current) <==> StepDown(state, l.name) == Some(l.parentRef) && l.parentRef in current
  {
    NextLevelMembers(state, current, l);
    SingleParentStep(state, l.name, l.parentRef);
  }

  /** One pass finds what steps down into the current level. */
  lemma PassMembers(state: State, current: seq<string>, x: string)
    requires DistinctNames(state) && SingleParents(state)
    ensures x in Names(NextLevel(state, current)) <==> StepDown(state, x).Some? && StepDown(state, x).value in current
  {
    var links := NextLevel(state, current);
    NameMembers(links, x);
    if l :| l in links && l.name == x {
      LinkMembers(state, current, l);
    }
    if StepDown(state, x).Some? {
      LinkMembers(state, current, Info(state, x));
    }
  }

  lemma LevelStep(state: State, branch: string, n: nat, x: string)
    requires DistinctNames(state) && SingleParents(state) && n > 0
    ensures x in Level(state, branch, n) <==>
      StepDown(state, x).Some? && StepDown(state, x).value in Level(state, branch, n - 1)
  {
    PassMembers(state, Level(state, branch, n - 1), x);
  }

  /** The `n`-th level above `branch` is what reaches `branch` in `n` steps down. */
  lemma {:induction false} LevelIsDown(state: State, branch: string, n: nat, x: string)
    requires DistinctNames(state) && SingleParents(state)
    ensures x in Level(state, branch, n) <==> Down(state, x, n) == Some(branch)
    decreases n
  {
    if n == 0 {
      assert Level(state, branch, 0) == [branch];
    } else {
      LevelStep(state, branch, n, x);
      var step := StepDown(state, x);
      if step.Some? {
        LevelIsDown(state, branch, n - 1, step.value);
        assert Down(state, x, n) == Down(state, step.value, n - 1);
      } else {
        assert Down(state, x, n) == None;
      }
    }
  }

  /** No branch is its own descendant. */
  lemma NoWayBack(state: State, x: string, n: nat)
    requires Acyclic(state) && n > 0
    ensures Down(state, x, n) != Some(x)
  {
    if Down(state, x, n) == Some(x) {
      var rank :| RankedBy(state, rank);
      DescentLowersRank(state, rank, x, n);
    }
  }

  lemma {:induction false} DescentLowersRank(state: State, rank: map<string, nat>, x: string, n: nat)
    requires RankedBy(state, rank) && n > 0 && Down(state, x, n).Some? && Get(state, Down(state, x, n).value).Some?
    ensures RankOf(state, rank, Down(state, x, n).value) < RankOf(state, rank, x)
    decreases n
  {
    var p := StepDown(state, x).value;
    assert HasParent(Get(state, x).value, p);
    if n > 1 {
      DescentLowersRank(state, rank, p, n - 1);
      assert Get(state, p).Some?;
    }
  }

  /** `l` is a non-trunk branch with its parent, from which `branch` is `d` steps down. */
  ghost predicate LinkAt(state: State, branch: string, l: StackBranchInfo, d: nat) {
    d >= 1 && StepDown(state, l.name) == Some(l.parentRef) && Down(state, l.name, d) == Some(branch)
  }

  ghost predicate Descends(state: State, branch: string, l: StackBranchInfo) {
    exists d: nat :: LinkAt(state, branch, l, d)
  }

  /** At most `n` steps. */
  ghost predicate Within(state: State, branch: string, l: StackBranchInfo, n: nat) {
    exists d: nat :: d <= n && LinkAt(state, branch, l, d)
  }

  /** Nearer branches come first. */
  ghost predicate ByDistance(state: State, branch: string, r: seq<StackBranchInfo>) {
    forall i, j, d: nat, e: nat ::
      0 <= i < j < |r| && LinkAt(state, branch, r[i], d) && LinkAt(state, branch, r[j], e) ==> d <= e
  }

  ghost predicate Covers(state: State, branch: string, n: nat, r: seq<StackBranchInfo>) {
    && (forall l :: l in r <==> Within(state, branch, l, n))
    && Distinct(Names(r))
    && ByDistance(state, branch, r)
  }

  lemma NotSooner(state: State, branch: string, x: string, d: nat, e: nat)
    requires Acyclic(state) && Down(state, x, d) == Some(branch) && Down(state, x, e) == Some(branch)
    ensures d >= e
  {
    if d < e {
      DownCompose(state, x, d, e - d);
      NoWayBack(state, branch, e - d);
    }
  }

  lemma DistanceUnique(state: State, branch: string, x: string, d: nat, e: nat)
    requires Acyclic(state) && Down(state, x, d) == Some(branch) && Down(state, x, e) == Some(branch)
    ensures d == e
  {
    NotSooner(state, branch, x, d, e);
    NotSooner(state, branch, x, e, d);
  }

  lemma {:induction false} OneLinkPerParent(name: string, parents: seq<Option<string>>, current: seq<string>)
    ensures |LinksIn(name, parents, current)| <= |parents|
    decreases parents
  {
    if parents == [] {
    } else {
      OneLinkPerParent(name, parents[..|parents| - 1], current);
    }
  }

  /** The last branch is not among the children found before it. */
  lemma NotYetLinked(state: State, current: seq<string>)
    requires DistinctNames(state) && state != []
    ensures state[|state| - 1].name !in Names(NextLevel(state[..|state| - 1], current))
  {
    var init := state[..|state| - 1];
    var before := NextLevel(init, current);
    forall i | 0 <= i < |before| ensures Names(before)[i] != state[|state| - 1].name {
      NextLevelMembers(init, current, before[i]);
      var c :| c in init && c.name == before[i].name;
      var k :| 0 <= k < |init| && init[k] == c;
      assert state[k] == c;
    }
  }

  lemma OneLink(b: Branch, current: seq<string>)
    requires b.parents.Some? ==> |b.parents.value| <= 1
    ensures Names(LinksOf(b, current)) == if LinksOf(b, current) == [] then [] else [b.name]
  {
    var links := LinksOf(b, current);
    if links != [] {
      OneLinkPerParent(b.name, b.parents.value, current);
      LinksInMembers(b.name, b.parents.value, current, links[0]);
      assert Names(links) == [links[0].name];
    }
  }

  lemma NamesConcat(a: seq<StackBranchInfo>, b: seq<StackBranchInfo>)
    ensures Names(a + b) == Names(a) + Names(b)
  {
  }

  /** One pass yields every child once. */
  lemma {:induction false} PassIsDistinct(state: State, current: seq<string>)
    requires DistinctNames(state) && SingleParents(state)
    ensures Distinct(Names(NextLevel(state, current)))
    decreases state
  {
    if state == [] {
    } else {
      var init, b := state[..|state| - 1], state[|state| - 1];
      assert state == init + [b];
      PassIsDistinct(init, current);
      OneLink(b, current);
      NotYetLinked(state, current);
      NamesConcat(NextLevel(init, current), LinksOf(b, current));
      DistinctConcat(Names(NextLevel(init, current)), Names(LinksOf(b, current)));
    }
  }

  /** Links into a level lead one step further. */
  lemma OneStepFurther(state: State, branch: string, n: nat, current: seq<string>, l: StackBranchInfo)
    requires DistinctNames(state) && SingleParents(state) && n > 0
    requires l.parentRef in current <==> Down(state, l.parentRef, n - 1) == Some(branch)
    ensures l in NextLevel(state, current) <==> LinkAt(state, branch, l, n)
  {
    LinkMembers(state, current, l);
    DownUnfolds(state, l.name, n);
  }

  lemma DownUnfolds(state: State, x: string, n: nat)
    requires n > 0
    ensures Down(state, x, n) == match StepDown(state, x) case None => None case Some(p) => Down(state, p, n - 1)
  {
  }

  lemma LastLinks(state: State, branch: string, n: nat)
    requires DistinctNames(state) && SingleParents(state) && n > 0
    ensures forall l :: l in NextLevel(state, Level(state, branch, n - 1)) <==> LinkAt(state, branch, l, n)
  {
    var current := Level(state, branch, n - 1);
    forall l ensures l in NextLevel(state, current) <==> LinkAt(state, branch, l, n) {
      LevelIsDown(state, branch, n - 1, l.parentRef);
      OneStepFurther(state, branch, n, current, l);
    }
  }

  lemma {:induction false} LinksCover(state: State, branch: string, n: nat)
    requires DistinctNames(state) && SingleParents(state) && Acyclic(state)
    ensures Covers(state, branch, n, Links(state, branch, n))
    decreases n
  {
    if n == 0 {
    } else {
      LinksCover(state, branch, n - 1);
      var before, last := Links(state, branch, n - 1), NextLevel(state, Level(state, branch, n - 1));
      PassIsDistinct(state, Level(state, branch, n - 1));
      LastLinks(state, branch, n);
      CoversAppend(state, branch, n, before, last);
    }
  }

  lemma CoversAppend(state: State, branch: string, n: nat,
                     before: seq<StackBranchInfo>, last: seq<StackBranchInfo>)
    requires Acyclic(state) && n > 0 && Covers(state, branch, n - 1, before)
    requires Distinct(Names(last))
    requires forall l :: l in last <==> LinkAt(state, branch, l, n)
    ensures Covers(state, branch, n, before + last)
  {
    var r := before + last;
    assert Names(r) == Names(before) + Names(last);
    forall i, j | 0 <= i < |before| && 0 <= j < |last| ensures before[i].name != last[j].name {
      assert before[i] in before && last[j] in last;
      var d: nat :| d <= n - 1 && LinkAt(state, branch, before[i], d);
      if before[i].name == last[j].name { DistanceUnique(state, branch, before[i].name, d, n); }
    }
    DistinctConcat(Names(before), Names(last));
    AppendByDistance(state, branch, n, before, last);
  }

  lemma AppendByDistance(state: State, branch: string, n: nat,
                         before: seq<StackBranchInfo>, last: seq<StackBranchInfo>)
    requires Acyclic(state) && n > 0 && Covers(state, branch, n - 1, before)
    requires forall l :: l in last <==> LinkAt(state, branch, l, n)
    ensures ByDistance(state, branch, before + last)
  {
    var r := before + last;
    forall i, j, d: nat, e: nat | 0 <= i < j < |r| && LinkAt(state, branch, r[i], d) && LinkAt(state, branch, r[j], e)
      ensures d <= e
    {
      if j >= |before| {
        assert r[j] in last;
        DistanceUnique(state, branch, r[j].name, e, n);
        assert Within(state, branch, r[i], n) by {
          if i < |before| {
            assert r[i] in before;
            var m: nat :| m <= n - 1 && LinkAt(state, branch, r[i], m);
          } else {
            assert r[i] in last;
          }
        }
        var k: nat :| k <= n && LinkAt(state, branch, r[i], k);
        DistanceUnique(state, branch, r[i].name, d, k);
      } else {
        assert r[i] == before[i] && r[j] == before[j];
      }
    }
  }

  /** Nothing lies beyond an empty level. */
  lemma LevelsEnd(state: State, branch: string, n: nat, x: string, k: nat)
    requires DistinctNames(state) && SingleParents(state) && Level(state, branch, n) == []
    ensures Down(state, x, k + n) != Some(branch)
  {
    match Down(state, x, k)
    case None =>
      DownStaysNone(state, x, k, n);
    case Some(y) =>
      DownCompose(state, x, k, n);
      EmptyLevel(state, branch, n, y);
  }

  lemma EmptyLevel(state: State, branch: string, n: nat, y: string)
    requires DistinctNames(state) && SingleParents(state) && Level(state, branch, n) == []
    ensures Down(state, y, n) != Some(branch)
  {
    LevelIsDown(state, branch, n, y);
  }

  lemma NoneFurther(state: State, branch: string, n: nat, l: StackBranchInfo, d: nat)
    requires DistinctNames(state) && SingleParents(state) && Level(state, branch, n) == []
    requires LinkAt(state, branch, l, d)
    ensures d < n
  {
    if d >= n {
      LevelsEnd(state, branch, n, l.name, d - n);
    }
  }

  lemma CoversAll(state: State, branch: string, n: nat, r: seq<StackBranchInfo>)
    requires DistinctNames(state) && SingleParents(state) && Level(state, branch, n + 1) == []
    requires Covers(state, branch, n, r)
    ensures forall l :: l in r <==> Descends(state, branch, l)
  {
    forall l: StackBranchInfo | Descends(state, branch, l) ensures l in r {
      var d: nat :| LinkAt(state, branch, l, d);
      NoneFurther(state, branch, n + 1, l, d);
      assert Within(state, branch, l, n);
    }
  }

  /**
   * `walk_upstack` lists each branch that reaches `branch` through non-trunk branches exactly
   * once, with its parent, in order of distance.
   */
  lemma UpstackIsDescendants(state: State, branch: string, r: seq<StackBranchInfo>)
    requires DistinctNames(state) && SingleParents(state) && Acyclic(state)
    requires UpstackOf(state, branch, r)
    ensures forall l :: l in r <==> Descends(state, branch, l)
    ensures Distinct(Names(r))
    ensures ByDistance(state, branch, r)
  {
    var n: nat :| Level(state, branch, n + 1) == [] && r == Links(state, branch, n);
    LinksCover(state, branch, n);
    CoversAll(state, branch, n, r);
  }

  /** `walk_downstack` passes a branch that has a parent iff some number of steps leads there. */
  lemma DownstackMembers(state: State, start: string, r: seq<StackBranchInfo>, b: string)
    requires DownstackFrom(state, start, r) && StepDown(state, b).Some?
    ensures b in Names(r) <==> exists n: nat :: Reaches(state, start, b, n)
  {
    if b in Names(r) {
      var i :| 0 <= i < |r| && Names(r)[i] == b;
      assert Reaches(state, start, b, i);
    }
    if n: nat :| Reaches(state, start, b, n) {
      DownExtend(state, start, n);
      if n >= |r| {
        DownStops(state, start, |r| + 1, n - |r|);
      }
      assert Names(r)[n] == b;
    }
  }

  lemma UpstackMembers(state: State, b: string, x: string, up: seq<StackBranchInfo>)
    requires DistinctNames(state) && SingleParents(state) && Acyclic(state)
    requires UpstackOf(state, b, up) && StepDown(state, x).Some?
    ensures x in Names(up) <==> exists d: nat :: LinkAt(state, b, Info(state, x), d)
  {
    UpstackIsDescendants(state, b, up);
    NameMembers(up, x);
    assert forall l :: l in up && l.name == x ==> l == Info(state, x);
    assert Info(state, x) in up <==> Descends(state, b, Info(state, x));
  }

  ghost predicate Reaches(state: State, from: string, b: string, n: nat) {
    Down(state, from, n) == Some(b)
  }

  lemma ReachesThroughParent(state: State, b: string, x: string)
    requires StepDown(state, x).Some?
    ensures (exists d: nat :: LinkAt(state, b, Info(state, x), d)) <==>
            exists n: nat :: Reaches(state, StepDown(state, x).value, b, n)
  {
    forall d: nat | LinkAt(state, b, Info(state, x), d)
      ensures exists n: nat :: Reaches(state, StepDown(state, x).value, b, n)
    {
      assert Reaches(state, StepDown(state, x).value, b, d - 1);
    }
    forall n: nat | Reaches(state, StepDown(state, x).value, b, n)
      ensures exists d: nat :: LinkAt(state, b, Info(state, x), d)
    {
      assert LinkAt(state, b, Info(state, x), n + 1);
    }
  }

  /**
   * The walks are inverse: for a non-trunk branch `b` with a parent, a non-trunk `x` is up the
   * stack from `b` iff `b` is down the stack from `x`'s parent.
   */
  lemma WalksAreInverse(state: State, b: string, x: string,
                        up: seq<StackBranchInfo>, parent: string, down: seq<StackBranchInfo>)
    requires DistinctNames(state) && SingleParents(state) && Acyclic(state)
    requires StepDown(state, b).Some? && StepDown(state, x) == Some(parent)
    requires UpstackOf(state, b, up) && DownstackFrom(state, parent, down)
    ensures x in Names(up) <==> b in Names(down)
  {
    UpstackMembers(state, b, x, up);
    DownstackMembers(state, parent, down, b);
    ReachesThroughParent(state, b, x);
  }

  /** A branch that names no parent, or is trunk, is in no upstack. */
  lemma UpstackHasParents(state: State, b: string, x: string, up: seq<StackBranchInfo>)
    requires DistinctNames(state) && SingleParents(state) && Acyclic(state)
    requires UpstackOf(state, b, up) && x in Names(up)
    ensures StepDown(state, x).Some?
  {
    UpstackIsDescendants(state, b, up);
    NameMembers(up, x);
  }
}
