/** The comment record, and the tree order in which a thread is shown. */
module Comments {
  import opened Collections

  datatype Comment = Comment(
    id: string,
    author: string,
    role: string,
    body: string,
    createdAt: int,
    inReplyTo: string,
    workingStartedAt: Option<int>)
  {
    /** When the agent started working on the reply, if it did; otherwise when it was posted. */
    function EffectiveTime(): int {
      match workingStartedAt
      case Some(t) => t
      case None => createdAt
    }
  }

  ghost predicate DistinctIds(cs: seq<Comment>) {
    forall i, j :: 0 <= i < j < |cs| ==> cs[i].id != cs[j].id
  }

  lemma SameIdSameComment(cs: seq<Comment>, a: Comment, b: Comment)
    requires DistinctIds(cs) && a in cs && b in cs && a.id == b.id
    ensures a == b
  {
    var i :| 0 <= i < |cs| && cs[i] == a;
    var j :| 0 <= j < |cs| && cs[j] == b;
    assert i == j;
  }
}

/** The meaning of the reply links: parents, ancestors and subtrees, with no order yet. */
module ReplyTree {
  import opened Collections
  import opened Comments

  /** The comment that `c` replies to, if it names one of `cs`. */
  ghost function ParentOf(cs: seq<Comment>, c: Comment): (p: Option<Comment>)
    ensures p.Some? ==> p.value in cs && p.value.id == c.inReplyTo && c.inReplyTo != ""
  {
    if c.inReplyTo != "" && exists p :: p in cs && p.id == c.inReplyTo then
      var p :| p in cs && p.id == c.inReplyTo;
      Some(p)
    else None
  }

  /** `n` steps up the parent chain, if it is that long. */
  ghost function Ancestor(cs: seq<Comment>, c: Comment, n: nat): Option<Comment>
    decreases n
  {
    if n == 0 then Some(c) else
      match ParentOf(cs, c)
      case None => None
      case Some(p) => Ancestor(cs, p, n - 1)
  }

  /** `c` is `a` itself or a direct or indirect reply to it. */
  ghost predicate Under(cs: seq<Comment>, a: Comment, c: Comment) {
    exists n: nat :: Ancestor(cs, c, n) == Some(a)
  }

  /** The parent chain of `c` reaches a root after exactly `d` steps. */
  ghost predicate AtDepth(cs: seq<Comment>, c: Comment, d: nat) {
    match Ancestor(cs, c, d)
    case None => false
    case Some(root) => ParentOf(cs, root) == None
  }

  /** The parent chain of `c` reaches a root at all: `c` is not on or below a cycle. */
  ghost predicate Grounded(cs: seq<Comment>, c: Comment) {
    exists d: nat :: AtDepth(cs, c, d)
  }

  lemma {:induction false} AncestorCompose(cs: seq<Comment>, c: Comment, n: nat, m: nat)
    requires Ancestor(cs, c, n).Some?
    ensures Ancestor(cs, c, n + m) == Ancestor(cs, Ancestor(cs, c, n).value, m)
    decreases n
  {
    if n == 0 {
    } else {
      AncestorCompose(cs, ParentOf(cs, c).value, n - 1, m);
    }
  }

  lemma {:induction false} DepthUnique(cs: seq<Comment>, c: Comment, d: nat, e: nat)
    requires AtDepth(cs, c, d) && AtDepth(cs, c, e)
    ensures d == e
    decreases d
  {
    if d == 0 || e == 0 {
    } else {
      DepthUnique(cs, ParentOf(cs, c).value, d - 1, e - 1);
    }
  }

  /** Going up `n` steps lowers the depth by `n`. */
  lemma {:induction false} DepthOfAncestor(cs: seq<Comment>, a: Comment, c: Comment, n: nat, d: nat)
    requires Ancestor(cs, c, n) == Some(a) && AtDepth(cs, a, d)
    ensures AtDepth(cs, c, d + n)
  {
    AncestorCompose(cs, c, n, d);
  }

  lemma UnderTransitive(cs: seq<Comment>, a: Comment, b: Comment, c: Comment)
    requires Under(cs, a, b) && Under(cs, b, c)
    ensures Under(cs, a, c)
  {
    var n: nat :| Ancestor(cs, c, n) == Some(b);
    var m: nat :| Ancestor(cs, b, m) == Some(a);
    AncestorCompose(cs, c, n, m);
  }

  /** Two comments at the same depth with a common descendant are the same comment. */
  lemma CommonDescendant(cs: seq<Comment>, a: Comment, b: Comment, c: Comment, d: nat)
    requires AtDepth(cs, a, d) && AtDepth(cs, b, d)
    requires Under(cs, a, c) && Under(cs, b, c)
    ensures a == b
  {
    var n: nat :| Ancestor(cs, c, n) == Some(a);
    var m: nat :| Ancestor(cs, c, m) == Some(b);
    DepthOfAncestor(cs, a, c, n, d);
    DepthOfAncestor(cs, b, c, m, d);
    DepthUnique(cs, c, d + n, d + m);
  }

  /** Everything under `a` is as deep as `a`, and only `a` itself is not deeper. */
  lemma UnderIsDeeper(cs: seq<Comment>, a: Comment, c: Comment, d: nat) returns (n: nat)
    requires AtDepth(cs, a, d) && Under(cs, a, c)
    ensures AtDepth(cs, c, d + n)
    ensures Ancestor(cs, c, n) == Some(a)
    ensures n == 0 <==> c == a
  {
    n :| Ancestor(cs, c, n) == Some(a);
    DepthOfAncestor(cs, a, c, n, d);
    if c == a { DepthUnique(cs, a, d, d + n); }
  }

  /** A strict descendant's parent is still under `a`. */
  lemma UnderParent(cs: seq<Comment>, a: Comment, c: Comment)
    requires Under(cs, a, c) && c != a
    ensures ParentOf(cs, c).Some? && Under(cs, a, ParentOf(cs, c).value)
  {
    var n: nat :| Ancestor(cs, c, n) == Some(a);
    assert Ancestor(cs, ParentOf(cs, c).value, n - 1) == Some(a);
  }

  lemma UnderSelf(cs: seq<Comment>, c: Comment)
    ensures Under(cs, c, c)
  {
    assert Ancestor(cs, c, 0) == Some(c);
  }

  lemma UnderChild(cs: seq<Comment>, a: Comment, k: Comment, c: Comment)
    requires ParentOf(cs, k) == Some(a) && Under(cs, k, c)
    ensures Under(cs, a, c)
  {
    assert Ancestor(cs, k, 0) == Some(k);
    assert Ancestor(cs, k, 1) == Ancestor(cs, a, 0) == Some(a);
    UnderTransitive(cs, a, k, c);
  }

  /** Every strict descendant of `a` is under exactly one direct reply to `a`. */
  lemma ChildAbove(cs: seq<Comment>, a: Comment, c: Comment) returns (k: Comment)
    requires c in cs && Under(cs, a, c) && c != a
    ensures k in cs && ParentOf(cs, k) == Some(a) && Under(cs, k, c)
  {
    var n: nat :| Ancestor(cs, c, n) == Some(a);
    k := LastStep(cs, a, c, n);
  }

  lemma {:induction false} LastStep(cs: seq<Comment>, a: Comment, c: Comment, n: nat) returns (k: Comment)
    requires c in cs && Ancestor(cs, c, n) == Some(a) && n > 0
    ensures k in cs && ParentOf(cs, k) == Some(a) && Under(cs, k, c)
    decreases n
  {
    var p := ParentOf(cs, c).value;
    if n == 1 {
      k := c;
      UnderSelf(cs, c);
    } else {
      k := LastStep(cs, a, p, n - 1);
      UnderSelf(cs, c);
      var m: nat :| Ancestor(cs, p, m) == Some(k);
      assert Ancestor(cs, c, m + 1) == Some(k);
    }
  }
}

/** apps/penpal/internal/comments/ordering.go */
module CommentOrder {
  import opened Collections
  import opened Comments
  import opened ReplyTree

  /** Two comments answer the same parent, or are both roots. */
  ghost predicate Siblings(cs: seq<Comment>, a: Comment, b: Comment) {
    ParentOf(cs, a) == ParentOf(cs, b)
  }

  /** The comments under `r[i]` occupy one unbroken stretch of `r`, which starts at `i`. */
  ghost predicate SubtreeContiguousAt(cs: seq<Comment>, r: seq<Comment>, i: nat)
    requires i < |r|
  {
    exists j :: i < j <= |r| && SpansSubtree(cs, r, i, j)
  }

  ghost predicate SpansSubtree(cs: seq<Comment>, r: seq<Comment>, i: nat, j: nat)
    requires i < j <= |r|
  {
    forall k :: 0 <= k < |r| ==> (i <= k < j <==> Under(cs, r[i], r[k]))
  }

  ghost predicate SiblingsByTime(cs: seq<Comment>, r: seq<Comment>) {
    forall i, j :: 0 <= i < j < |r| && Siblings(cs, r[i], r[j]) ==>
      r[i].EffectiveTime() <= r[j].EffectiveTime()
  }

  /** `c` is one of `tops` or a direct or indirect reply to one. */
  ghost predicate UnderAny(cs: seq<Comment>, tops: seq<Comment>, c: Comment) {
    exists t :: t in tops && Under(cs, t, c)
  }

  ghost predicate Covers(cs: seq<Comment>, tops: seq<Comment>, r: seq<Comment>) {
    forall c {:trigger c in r} {:trigger UnderAny(cs, tops, c)} :: c in r <==> c in cs && UnderAny(cs, tops, c)
  }

  /** `r` lists everything under `tops`, once each, in tree order. */
  ghost predicate ForestOrder(cs: seq<Comment>, tops: seq<Comment>, r: seq<Comment>) {
    && Distinct(r)
    && Covers(cs, tops, r)
    && (forall i: nat :: i < |r| ==> SubtreeContiguousAt(cs, r, i))
    && SiblingsByTime(cs, r)
  }

  /**
   * What the page promises: the comments whose parent chain reaches a root, each once; every
   * subtree contiguous and headed by its own root (so parents come before their replies);
   * siblings by effective time.
   */
  ghost predicate TreeOrder(cs: seq<Comment>, r: seq<Comment>) {
    && Distinct(r)
    && (forall c :: c in r <==> c in cs && Grounded(cs, c))
    && (forall i: nat :: i < |r| ==> SubtreeContiguousAt(cs, r, i))
    && SiblingsByTime(cs, r)
  }

  /** In a tree order every comment comes after the one it replies to. */
  lemma ParentsFirst(cs: seq<Comment>, r: seq<Comment>, i: nat, j: nat)
    requires TreeOrder(cs, r) && i < |r| && j < |r|
    requires ParentOf(cs, r[j]) == Some(r[i])
    ensures i < j
  {
    UnderSelf(cs, r[j]);
    UnderChild(cs, r[i], r[j], r[j]);
    assert SubtreeContiguousAt(cs, r, i);
    assert r[j] in r;
    var d: nat :| AtDepth(cs, r[j], d);
    ParentOfRootIsNotUnder(cs, r[j], d);
  }

  function ChildrenOf(children: map<string, seq<Comment>>, id: string): seq<Comment> {
    if id in children then children[id] else []
  }

  /** One of the first `n` comments, and a reply to a comment of the thread. */
  ghost predicate ReplyAmong(cs: seq<Comment>, n: nat, c: Comment)
    requires n <= |cs|
  {
    c in cs[..n] && ParentOf(cs, c).Some?
  }

  /** Roots and replies as the source files them before sorting and walking. */
  ghost predicate GroupedPrefix(cs: seq<Comment>, n: nat, roots: seq<Comment>, children: map<string, seq<Comment>>)
    requires n <= |cs|
  {
    && Distinct(roots)
    && (forall c :: c in roots <==> c in cs[..n] && ParentOf(cs, c) == None)
    && (forall k :: k in children ==> Distinct(children[k]))
    && (forall k, c {:trigger c in ChildrenOf(children, k)} ::
          c in ChildrenOf(children, k) <==> k == c.inReplyTo && ReplyAmong(cs, n, c))
  }

  ghost predicate Grouped(cs: seq<Comment>, roots: seq<Comment>, children: map<string, seq<Comment>>) {
    && GroupedPrefix(cs, |cs|, roots, children)
    && SortedBy(roots, (c: Comment) => c.EffectiveTime())
    && (forall k :: k in children ==> SortedBy(children[k], (c: Comment) => c.EffectiveTime()))
  }

  /** `tops` are siblings at depth `d`. */
  ghost predicate SameLevel(cs: seq<Comment>, tops: seq<Comment>, d: nat) {
    && (forall t :: t in tops ==> t in cs && AtDepth(cs, t, d))
    && (forall s, t :: s in tops && t in tops ==> Siblings(cs, s, t))
  }

  /** `kids` are the direct replies to `a`. */
  ghost predicate RepliesTo(cs: seq<Comment>, a: Comment, kids: seq<Comment>) {
    forall x :: x in kids <==> x in cs && ParentOf(cs, x) == Some(a)
  }

  /** `block` is exactly what lies strictly below `a`. */
  ghost predicate StrictSubtree(cs: seq<Comment>, a: Comment, block: seq<Comment>) {
    forall c :: c in block <==> c in cs && c != a && Under(cs, a, c)
  }

  lemma KidsCoverSubtree(cs: seq<Comment>, a: Comment, d: nat, kids: seq<Comment>, block: seq<Comment>)
    requires AtDepth(cs, a, d)
    requires RepliesTo(cs, a, kids)
    requires Covers(cs, kids, block)
    ensures StrictSubtree(cs, a, block)
    ensures forall c :: c in block ==> !Under(cs, c, a)
  {
    UnderSelf(cs, a);
    forall c | c in block ensures c != a && Under(cs, a, c) && !Under(cs, c, a) {
      var k :| k in kids && Under(cs, k, c);
      UnderChild(cs, a, k, c);
      NotAboveItsAncestor(cs, a, k, c, d);
    }
    forall c | c in cs && c != a && Under(cs, a, c) ensures c in block {
      var k := ChildAbove(cs, a, c);
    }
  }

  lemma PrependContiguous(cs: seq<Comment>, a: Comment, block: seq<Comment>, i: nat)
    requires StrictSubtree(cs, a, block)
    requires forall c :: c in block ==> !Under(cs, c, a)
    requires forall i: nat :: i < |block| ==> SubtreeContiguousAt(cs, block, i)
    requires i <= |block|
    ensures SubtreeContiguousAt(cs, [a] + block, i)
  {
    var r := [a] + block;
    UnderSelf(cs, a);
    if i == 0 {
      assert SpansSubtree(cs, r, 0, |r|);
    } else {
      assert SubtreeContiguousAt(cs, block, i - 1);
      var j :| i - 1 < j <= |block| && SpansSubtree(cs, block, i - 1, j);
      forall k | 0 <= k < |r| ensures i <= k < j + 1 <==> Under(cs, r[i], r[k]) {
        if k > 0 { assert r[k] == block[k - 1]; } else { assert block[i - 1] in block; }
      }
      assert SpansSubtree(cs, r, i, j + 1);
    }
  }

  lemma PrependByTime(cs: seq<Comment>, a: Comment, d: nat, block: seq<Comment>)
    requires AtDepth(cs, a, d) && StrictSubtree(cs, a, block) && SiblingsByTime(cs, block)
    ensures SiblingsByTime(cs, [a] + block)
  {
    var r := [a] + block;
    forall i, j | 0 <= i < j < |r| && Siblings(cs, r[i], r[j])
      ensures r[i].EffectiveTime() <= r[j].EffectiveTime()
    {
      if i == 0 {
        assert block[j - 1] in block;
        UnderParent(cs, a, r[j]);
        ParentOfRootIsNotUnder(cs, a, d);
      } else {
        assert r[i] == block[i - 1] && r[j] == block[j - 1];
      }
    }
  }

  /** `a` followed by the forest of its replies is `a`'s whole subtree in tree order. */
  lemma PrependNode(cs: seq<Comment>, a: Comment, d: nat, kids: seq<Comment>, block: seq<Comment>)
    requires a in cs && AtDepth(cs, a, d)
    requires RepliesTo(cs, a, kids)
    requires ForestOrder(cs, kids, block)
    ensures ForestOrder(cs, [a], [a] + block)
  {
    KidsCoverSubtree(cs, a, d, kids, block);
    UnderSelf(cs, a);
    DistinctConcat([a], block);
    forall i: nat | i <= |block| ensures SubtreeContiguousAt(cs, [a] + block, i) {
      PrependContiguous(cs, a, block, i);
    }
    PrependByTime(cs, a, d, block);
  }

  lemma NotAboveItsAncestor(cs: seq<Comment>, a: Comment, k: Comment, c: Comment, d: nat)
    requires AtDepth(cs, a, d) && ParentOf(cs, k) == Some(a) && Under(cs, k, c)
    ensures !Under(cs, c, a)
  {
    assert Ancestor(cs, k, 1) == Ancestor(cs, a, 0);
    DepthOfAncestor(cs, a, k, 1, d);
    var n := UnderIsDeeper(cs, k, c, d + 1);
    if Under(cs, c, a) {
      var m := UnderIsDeeper(cs, c, a, d + 1 + n);
      DepthUnique(cs, a, d, d + 1 + n + m);
    }
  }

  lemma ParentOfRootIsNotUnder(cs: seq<Comment>, a: Comment, d: nat)
    requires AtDepth(cs, a, d) && ParentOf(cs, a).Some?
    ensures !Under(cs, a, ParentOf(cs, a).value)
  {
    var p := ParentOf(cs, a).value;
    if Under(cs, a, p) {
      var n := UnderIsDeeper(cs, a, p, d);
      assert AtDepth(cs, a, d + n + 1);
      DepthUnique(cs, a, d, d + n + 1);
    }
  }

  /** Two sibling subtrees share nothing, and nothing crosses between them. */
  lemma SubtreesApart(cs: seq<Comment>, s: Comment, t: Comment, x: Comment, y: Comment, d: nat)
    requires AtDepth(cs, s, d) && AtDepth(cs, t, d) && s != t
    requires Under(cs, s, x) && Under(cs, t, y)
    ensures x != y && !Under(cs, x, y) && !Under(cs, y, x)
    ensures ParentOf(cs, x) == ParentOf(cs, y) ==> x == s && y == t
  {
    if Under(cs, x, y) {
      UnderTransitive(cs, s, x, y);
      CommonDescendant(cs, s, t, y, d);
    }
    if Under(cs, y, x) {
      UnderTransitive(cs, t, y, x);
      CommonDescendant(cs, s, t, x, d);
    }
    if x == y { UnderSelf(cs, x); }
    if ParentOf(cs, x) == ParentOf(cs, y) {
      var n := UnderIsDeeper(cs, s, x, d);
      var m := UnderIsDeeper(cs, t, y, d);
      if x != s { ParentsApart(cs, s, t, x, y, d, n, m); }
      if y != t { ParentsApart(cs, t, s, y, x, d, m, n); }
    }
  }

  lemma ParentsApart(cs: seq<Comment>, s: Comment, t: Comment, x: Comment, y: Comment, d: nat, n: nat, m: nat)
    requires AtDepth(cs, s, d) && AtDepth(cs, t, d) && s != t
    requires Under(cs, s, x) && Under(cs, t, y) && x != s
    requires AtDepth(cs, x, d + n) && n > 0 && AtDepth(cs, y, d + m)
    ensures ParentOf(cs, x) != ParentOf(cs, y)
  {
    if ParentOf(cs, x) == ParentOf(cs, y) {
      UnderParent(cs, s, x);
      var p := ParentOf(cs, x).value;
      assert AtDepth(cs, p, d + n - 1);
      assert AtDepth(cs, y, d + n);
      DepthUnique(cs, y, d + n, d + m);
      if y == t {
        DepthUnique(cs, t, d, d + n);
      } else {
        UnderParent(cs, t, y);
        CommonDescendant(cs, s, t, p, d);
      }
    }
  }

  lemma AppendContiguous(cs: seq<Comment>, r1: seq<Comment>, r2: seq<Comment>, i: nat)
    requires forall x, y :: x in r1 && y in r2 ==> !Under(cs, x, y) && !Under(cs, y, x)
    requires forall i: nat :: i < |r1| ==> SubtreeContiguousAt(cs, r1, i)
    requires forall i: nat :: i < |r2| ==> SubtreeContiguousAt(cs, r2, i)
    requires i < |r1 + r2|
    ensures SubtreeContiguousAt(cs, r1 + r2, i)
  {
    var r := r1 + r2;
    if i < |r1| {
      assert SubtreeContiguousAt(cs, r1, i);
      var j :| i < j <= |r1| && SpansSubtree(cs, r1, i, j);
      forall k | 0 <= k < |r| ensures i <= k < j <==> Under(cs, r[i], r[k]) {
        if k < |r1| { assert r[k] == r1[k]; } else { assert r[k] in r2 && r[i] in r1; }
      }
      assert SpansSubtree(cs, r, i, j);
    } else {
      var n := |r1|;
      assert SubtreeContiguousAt(cs, r2, i - n);
      var j :| i - n < j <= |r2| && SpansSubtree(cs, r2, i - n, j);
      forall k | 0 <= k < |r| ensures i <= k < j + n <==> Under(cs, r[i], r[k]) {
        if k < n { assert r[k] in r1 && r[i] in r2; } else { assert r[k] == r2[k - n]; }
      }
      assert SpansSubtree(cs, r, i, j + n);
    }
  }

  /** `tops`' forest followed by the later sibling `t`'s subtree. */
  lemma AppendForest(cs: seq<Comment>, tops: seq<Comment>, t: Comment, d: nat, r1: seq<Comment>, r2: seq<Comment>)
    requires SameLevel(cs, tops + [t], d) && t !in tops
    requires ForestOrder(cs, tops, r1) && ForestOrder(cs, [t], r2)
    requires forall s :: s in tops ==> s.EffectiveTime() <= t.EffectiveTime()
    ensures ForestOrder(cs, tops + [t], r1 + r2)
  {
    var r := r1 + r2;
    assert t in tops + [t];
    forall x, y | x in r1 && y in r2
      ensures x != y && !Under(cs, x, y) && !Under(cs, y, x)
      ensures Siblings(cs, x, y) ==> x in tops && y == t
    {
      var s :| s in tops && Under(cs, s, x);
      assert s in tops + [t];
      SubtreesApart(cs, s, t, x, y, d);
    }
    DistinctConcat(r1, r2);
    forall i: nat | i < |r| ensures SubtreeContiguousAt(cs, r, i) {
      AppendContiguous(cs, r1, r2, i);
    }
    forall i, j | 0 <= i < j < |r| && Siblings(cs, r[i], r[j])
      ensures r[i].EffectiveTime() <= r[j].EffectiveTime()
    {
      if i < |r1| <= j {
        assert r[i] in r1 && r[j] in r2;
      } else if j < |r1| {
        assert r[i] == r1[i] && r[j] == r1[j];
      } else {
        assert r[i] == r2[i - |r1|] && r[j] == r2[j - |r1|];
      }
    }
    AppendMembers(cs, tops, t, r1, r2);
  }

  lemma AppendMembers(cs: seq<Comment>, tops: seq<Comment>, t: Comment, r1: seq<Comment>, r2: seq<Comment>)
    requires Covers(cs, tops, r1) && Covers(cs, [t], r2)
    ensures Covers(cs, tops + [t], r1 + r2)
  {
    forall c ensures c in r1 + r2 <==> c in cs && UnderAny(cs, tops + [t], c) {
      if c in r1 {
        var s :| s in tops && Under(cs, s, c);
        assert s in tops + [t];
      } else if c in r2 {
        assert t in tops + [t];
      }
    }
  }

  /** The comments under a root are the grounded ones. */
  lemma UnderRootIffGrounded(cs: seq<Comment>, roots: seq<Comment>, c: Comment)
    requires forall x :: x in roots <==> x in cs && ParentOf(cs, x) == None
    requires c in cs
    ensures Grounded(cs, c) <==> UnderAny(cs, roots, c)
  {
    if Grounded(cs, c) {
      var d: nat :| AtDepth(cs, c, d);
      var t := Ancestor(cs, c, d).value;
      AncestorInThread(cs, c, d);
      assert t in roots && Under(cs, t, c);
    }
    if UnderAny(cs, roots, c) {
      var t :| t in roots && Under(cs, t, c);
      var d: nat :| Ancestor(cs, c, d) == Some(t);
      assert AtDepth(cs, c, d);
    }
  }

  lemma {:induction false} AncestorInThread(cs: seq<Comment>, c: Comment, n: nat)
    requires c in cs && Ancestor(cs, c, n).Some?
    ensures Ancestor(cs, c, n).value in cs
    decreases n
  {
    if n == 0 {
    } else {
      AncestorInThread(cs, ParentOf(cs, c).value, n - 1);
    }
  }

  /** What is filed under a comment: its direct replies, once each, in time order. */
  ghost predicate Family(cs: seq<Comment>, children: map<string, seq<Comment>>, c: Comment) {
    var kids := ChildrenOf(children, c.id);
    Distinct(kids) && RepliesTo(cs, c, kids) && SortedBy(kids, (x: Comment) => x.EffectiveTime())
  }

  ghost predicate Families(cs: seq<Comment>, children: map<string, seq<Comment>>) {
    forall c {:trigger Family(cs, children, c)} :: c in cs ==> Family(cs, children, c)
  }

  lemma FiledIsReply(cs: seq<Comment>, roots: seq<Comment>, children: map<string, seq<Comment>>, c: Comment, x: Comment)
    requires DistinctIds(cs) && GroupedPrefix(cs, |cs|, roots, children) && c in cs
    ensures x in ChildrenOf(children, c.id) <==> x in cs && ParentOf(cs, x) == Some(c)
  {
    assert cs[..|cs|] == cs;
    assert x in ChildrenOf(children, c.id) <==> c.id == x.inReplyTo && ReplyAmong(cs, |cs|, x);
    if c.id == x.inReplyTo && ReplyAmong(cs, |cs|, x) {
      SameIdSameComment(cs, ParentOf(cs, x).value, c);
    }
  }

  lemma GroupedFamilies(cs: seq<Comment>, roots: seq<Comment>, children: map<string, seq<Comment>>)
    requires DistinctIds(cs) && Grouped(cs, roots, children)
    ensures Families(cs, children)
  {
    forall c | c in cs ensures Family(cs, children, c) {
      forall x ensures x in ChildrenOf(children, c.id) <==> x in cs && ParentOf(cs, x) == Some(c) {
        FiledIsReply(cs, roots, children, c, x);
      }
    }
  }

  /** Only comments less than `d` deep are missing from `left`. */
  ghost predicate LeftBelow(cs: seq<Comment>, left: set<Comment>, d: nat) {
    forall p :: p in cs && p !in left ==> exists e: nat :: e < d && AtDepth(cs, p, e)
  }

  /**
   * The recursive closure `walk`, which appends everything below `c` to the shared `result`.
   * Reply links may contain cycles; it ends because the comments on the way down from a root have
   * strictly increasing depths and so never repeat: `left` is what the way down has not used.
   */
  method Walk(cs: seq<Comment>, children: map<string, seq<Comment>>, c: Comment, result: seq<Comment>,
              ghost d: nat, ghost left: set<Comment>)
    returns (out: seq<Comment>)
    requires Families(cs, children)
    requires c in cs && AtDepth(cs, c, d) && LeftBelow(cs, left, d)
    ensures result <= out
    ensures ForestOrder(cs, ChildrenOf(children, c.id), out[|result|..])
    decreases left
  {
    out := result;
    var kids := ChildrenOf(children, c.id);
    FamilyLevel(cs, children, c, d);
    EmptyForest(cs);
    var i := 0;
    while i < |kids|
      invariant 0 <= i <= |kids|
      invariant result <= out
      invariant ForestOrder(cs, kids[..i], out[|result|..])
    {
      ghost var before := out;
      WalkStep(cs, children, c, i, d, left);
      out := Walk(cs, children, kids[i], out + [kids[i]], d + 1, left - {c});
      NextSibling(cs, kids, i, d + 1, ChildrenOf(children, kids[i].id), before[|result|..], out[|before| + 1..]);
      Regroup(result, before, kids[i], out);
      i := i + 1;
    }
    assert kids[..i] == kids;
  }

  /** What lies behind `a`, after one more element and more. */
  lemma Regroup<T>(a: seq<T>, b: seq<T>, x: T, all: seq<T>)
    requires a <= b && b + [x] <= all
    ensures a <= all && all[|a|..] == b[|a|..] + ([x] + all[|b| + 1..])
  {
    assert all == b + [x] + all[|b| + 1..];
  }

  lemma EmptyForest(cs: seq<Comment>)
    ensures ForestOrder(cs, [], [])
  {
  }

  /** The replies to `c` are siblings one level down, in time order. */
  lemma FamilyLevel(cs: seq<Comment>, children: map<string, seq<Comment>>, c: Comment, d: nat)
    requires Families(cs, children) && c in cs && AtDepth(cs, c, d)
    ensures var kids := ChildrenOf(children, c.id);
      Distinct(kids) && SameLevel(cs, kids, d + 1) && SortedBy(kids, (x: Comment) => x.EffectiveTime())
  {
    assert Family(cs, children, c);
    forall t | t in ChildrenOf(children, c.id) ensures AtDepth(cs, t, d + 1) {
      assert Ancestor(cs, t, 1) == Ancestor(cs, c, 0);
      DepthOfAncestor(cs, c, t, 1, d);
    }
  }

  lemma WalkStep(cs: seq<Comment>, children: map<string, seq<Comment>>, c: Comment, i: nat, d: nat, left: set<Comment>)
    requires Families(cs, children) && c in cs && AtDepth(cs, c, d) && LeftBelow(cs, left, d)
    requires i < |ChildrenOf(children, c.id)|
    ensures var k := ChildrenOf(children, c.id)[i];
      k in cs && AtDepth(cs, k, d + 1) && RepliesTo(cs, k, ChildrenOf(children, k.id))
    ensures LeftBelow(cs, left - {c}, d + 1) && c in left
  {
    var k := ChildrenOf(children, c.id)[i];
    assert Family(cs, children, c);
    assert k in ChildrenOf(children, c.id);
    assert Family(cs, children, k);
    assert Ancestor(cs, k, 1) == Ancestor(cs, c, 0);
    DepthOfAncestor(cs, c, k, 1, d);
    if c !in left {
      var e: nat :| e < d && AtDepth(cs, c, e);
      DepthUnique(cs, c, d, e);
    }
  }

  /** One round of the loop over siblings: the next one and everything below it are appended. */
  lemma NextSibling(cs: seq<Comment>, tops: seq<Comment>, i: nat, d: nat, kids: seq<Comment>,
                    before: seq<Comment>, below: seq<Comment>)
    requires i < |tops| && Distinct(tops) && SameLevel(cs, tops, d)
    requires SortedBy(tops, (c: Comment) => c.EffectiveTime())
    requires RepliesTo(cs, tops[i], kids)
    requires ForestOrder(cs, tops[..i], before) && ForestOrder(cs, kids, below)
    ensures ForestOrder(cs, tops[..i + 1], before + ([tops[i]] + below))
  {
    EarlierSiblings(cs, tops, i, d);
    NextSubtree(cs, tops[..i], tops[i], d, kids, before, below);
  }

  lemma NextSubtree(cs: seq<Comment>, tops: seq<Comment>, t: Comment, d: nat, kids: seq<Comment>,
                    before: seq<Comment>, below: seq<Comment>)
    requires SameLevel(cs, tops + [t], d) && t !in tops
    requires forall s :: s in tops ==> s.EffectiveTime() <= t.EffectiveTime()
    requires RepliesTo(cs, t, kids)
    requires ForestOrder(cs, tops, before) && ForestOrder(cs, kids, below)
    ensures ForestOrder(cs, tops + [t], before + ([t] + below))
  {
    assert t in tops + [t];
    PrependNode(cs, t, d, kids, below);
    AppendForest(cs, tops, t, d, before, [t] + below);
  }

  lemma EarlierSiblings(cs: seq<Comment>, tops: seq<Comment>, i: nat, d: nat)
    requires i < |tops| && Distinct(tops) && SameLevel(cs, tops, d)
    requires SortedBy(tops, (c: Comment) => c.EffectiveTime())
    ensures tops[..i + 1] == tops[..i] + [tops[i]]
    ensures SameLevel(cs, tops[..i] + [tops[i]], d)
    ensures tops[i] !in tops[..i]
    ensures forall s :: s in tops[..i] ==> s.EffectiveTime() <= tops[i].EffectiveTime()
  {
    var key := (c: Comment) => c.EffectiveTime();
    forall s | s in tops[..i] ensures s != tops[i] && s.EffectiveTime() <= tops[i].EffectiveTime() {
      var j :| 0 <= j < i && tops[j] == s;
      assert key(tops[j]) <= key(tops[i]);
    }
    assert forall s :: s in tops[..i] + [tops[i]] ==> s in tops;
  }

  /** The grouping loop: a comment is a root if it has no `inReplyTo` or names no comment of the thread. */
  method Group(cs: seq<Comment>) returns (roots: seq<Comment>, children: map<string, seq<Comment>>)
    requires DistinctIds(cs)
    ensures GroupedPrefix(cs, |cs|, roots, children)
  {
    var byId := set c | c in cs :: c.id;
    roots, children := [], map[];
    for i := 0 to |cs|
      invariant GroupedPrefix(cs, i, roots, children)
    {
      var c := cs[i];
      assert c in cs && c !in cs[..i];
      assert cs[..i + 1] == cs[..i] + [c];
      if c.inReplyTo != "" && c.inReplyTo in byId {
        assert ParentOf(cs, c).Some?;
        GroupReply(cs, i, roots, children);
        children := children[c.inReplyTo := ChildrenOf(children, c.inReplyTo) + [c]];
      } else {
        assert ParentOf(cs, c) == None;
        DistinctConcat(roots, [c]);
        roots := roots + [c];
      }
    }
  }

  lemma GroupReply(cs: seq<Comment>, i: nat, roots: seq<Comment>, children: map<string, seq<Comment>>)
    requires i < |cs| && DistinctIds(cs) && GroupedPrefix(cs, i, roots, children)
    requires ParentOf(cs, cs[i]).Some?
    ensures var c := cs[i];
      GroupedPrefix(cs, i + 1, roots, children[c.inReplyTo := ChildrenOf(children, c.inReplyTo) + [c]])
  {
    var c := cs[i];
    var kids := ChildrenOf(children, c.inReplyTo);
    assert cs[..i + 1] == cs[..i] + [c];
    assert c !in cs[..i];
    DistinctConcat(kids, [c]);
    var more := children[c.inReplyTo := kids + [c]];
    forall k, x {:trigger x in ChildrenOf(more, k)}
      ensures x in ChildrenOf(more, k) <==> k == x.inReplyTo && ReplyAmong(cs, i + 1, x)
    {
      assert x in ChildrenOf(children, k) <==> k == x.inReplyTo && ReplyAmong(cs, i, x);
    }
  }

  /** The sorting passes over `roots` and over every entry of `children`. */
  method SortGroups(cs: seq<Comment>, roots0: seq<Comment>, children0: map<string, seq<Comment>>)
    returns (roots: seq<Comment>, children: map<string, seq<Comment>>)
    requires GroupedPrefix(cs, |cs|, roots0, children0)
    ensures Grouped(cs, roots, children)
  {
    var key := (c: Comment) => c.EffectiveTime();
    roots := Sort(roots0, key);
    PermutationKeepsElements(roots0, roots);
    children := children0;
    var todo := children.Keys;
    while todo != {}
      invariant todo <= children.Keys
      invariant GroupedPrefix(cs, |cs|, roots, children)
      invariant forall k :: k in children && k !in todo ==> SortedBy(children[k], key)
      decreases todo
    {
      var k :| k in todo;
      var kids := Sort(children[k], key);
      PermutationKeepsElements(children[k], kids);
      SortOne(cs, roots, children, k, kids);
      children := children[k := kids];
      todo := todo - {k};
    }
  }

  lemma SortOne(cs: seq<Comment>, roots: seq<Comment>, children: map<string, seq<Comment>>, k: string,
                kids: seq<Comment>)
    requires GroupedPrefix(cs, |cs|, roots, children) && k in children && Distinct(kids)
    requires forall x :: x in kids <==> x in children[k]
    ensures GroupedPrefix(cs, |cs|, roots, children[k := kids])
  {
    var sorted := children[k := kids];
    forall j, x {:trigger x in ChildrenOf(sorted, j)}
      ensures x in ChildrenOf(sorted, j) <==> j == x.inReplyTo && ReplyAmong(cs, |cs|, x)
    {
      assert x in ChildrenOf(children, j) <==> j == x.inReplyTo && ReplyAmong(cs, |cs|, x);
    }
  }

  method OrderComments(cs: seq<Comment>) returns (result: seq<Comment>)
    requires DistinctIds(cs)
    ensures |cs| <= 1 ==> result == cs
    ensures |cs| >= 2 ==> TreeOrder(cs, result)
  {
    if |cs| <= 1 {
      return cs;
    }
    var roots, children := Group(cs);
    roots, children := SortGroups(cs, roots, children);
    RootsAreSiblings(cs, roots, children);
    GroupedFamilies(cs, roots, children);
    EmptyForest(cs);
    result := [];
    var i := 0;
    while i < |roots|
      invariant 0 <= i <= |roots|
      invariant ForestOrder(cs, roots[..i], result)
    {
      ghost var before := result;
      assert roots[i] in roots && Family(cs, children, roots[i]);
      result := Walk(cs, children, roots[i], result + [roots[i]], 0, set x | x in cs);
      ghost var below := result[|before| + 1..];
      NextSibling(cs, roots, i, 0, ChildrenOf(children, roots[i].id), before, below);
      assert result == before + ([roots[i]] + below);
      i := i + 1;
    }
    assert roots[..i] == roots;
    ForestIsTreeOrder(cs, roots, result);
  }

  lemma RootsAreSiblings(cs: seq<Comment>, roots: seq<Comment>, children: map<string, seq<Comment>>)
    requires Grouped(cs, roots, children)
    ensures SameLevel(cs, roots, 0) && Distinct(roots)
  {
    assert cs[..|cs|] == cs;
  }

  lemma ForestIsTreeOrder(cs: seq<Comment>, roots: seq<Comment>, r: seq<Comment>)
    requires forall x :: x in roots <==> x in cs && ParentOf(cs, x) == None
    requires ForestOrder(cs, roots, r)
    ensures TreeOrder(cs, r)
  {
    forall c ensures c in r <==> c in cs && Grounded(cs, c) {
      if c in cs { UnderRootIffGrounded(cs, roots, c); }
    }
  }

  /** `OrderComments` loses nothing exactly when no comment sits on or below a reply cycle. */
  lemma NothingLostIffAllGrounded(cs: seq<Comment>, r: seq<Comment>)
    requires DistinctIds(cs) && TreeOrder(cs, r)
    ensures multiset(r) == multiset(cs) <==> forall c :: c in cs ==> Grounded(cs, c)
  {
    assert Distinct(cs);
    if multiset(r) == multiset(cs) {
      PermutationKeepsElements(cs, r);
    }
    if forall c :: c in cs ==> Grounded(cs, c) {
      DistinctSameElements(cs, r);
    }
  }
}
