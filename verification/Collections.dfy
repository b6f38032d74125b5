/** Shared vocabulary: optional values, membership and sorting over sequences. */
module Collections {

  datatype Option<+T> = None | Some(value: T)

  /** No value occurs twice. */
  ghost predicate Distinct<T>(s: seq<T>) {
    forall i, j :: 0 <= i < j < |s| ==> s[i] != s[j]
  }

  /** Keys never decrease along `s`. Says nothing about the order of equal keys. */
  ghost predicate SortedBy<T>(s: seq<T>, key: T -> int) {
    forall i, j :: 0 <= i < j < |s| ==> key(s[i]) <= key(s[j])
  }

  lemma DistinctConcat<T>(a: seq<T>, b: seq<T>)
    requires Distinct(a) && Distinct(b)
    requires forall x :: x in a ==> x !in b
    ensures Distinct(a + b)
  {
    var s := a + b;
    forall i, j | 0 <= i < j < |s| ensures s[i] != s[j] {
      if i < |a| <= j {
        assert s[i] in a && s[j] in b;
      }
    }
  }

  /** Two sequences with the same elements, each at most once, are permutations of each other. */
  lemma DistinctSameElements<T>(a: seq<T>, b: seq<T>)
    requires Distinct(a) && Distinct(b)
    requires forall x :: x in a <==> x in b
    ensures multiset(a) == multiset(b)
  {
    forall x ensures multiset(a)[x] == multiset(b)[x] {
      DistinctMultiplicity(a, x);
      DistinctMultiplicity(b, x);
    }
  }

  lemma {:induction false} DistinctMultiplicity<T>(s: seq<T>, x: T)
    requires Distinct(s)
    ensures multiset(s)[x] == if x in s then 1 else 0
  {
    if s == [] {
    } else {
      var init, last := s[..|s| - 1], s[|s| - 1];
      assert s == init + [last];
      DistinctMultiplicity(init, x);
    }
  }

  lemma PermutationKeepsElements<T>(a: seq<T>, b: seq<T>)
    requires multiset(a) == multiset(b)
    ensures forall x :: x in a <==> x in b
    ensures Distinct(a) ==> Distinct(b)
  {
    assert forall x :: x in a <==> x in multiset(a);
    assert forall x :: x in b <==> x in multiset(b);
    if Distinct(a) {
      forall i, j | 0 <= i < j < |b| ensures b[i] != b[j] {
        DistinctMultiplicity(a, b[i]);
        assert b == b[..i] + [b[i]] + b[i + 1..j] + [b[j]] + b[j + 1..];
      }
    }
  }

  function Map<A, B>(f: A -> B, s: seq<A>): seq<B> {
    seq(|s|, i requires 0 <= i < |s| => f(s[i]))
  }

  lemma MultisetSplit<T>(s: seq<T>, i: nat)
    requires i < |s|
    ensures multiset(s) == multiset(Without(s, i)) + multiset{s[i]}
    ensures multiset(Without(s, i)) == multiset(s) - multiset{s[i]}
  {
    assert s == s[..i] + [s[i]] + s[i + 1..];
  }

  function Without<T>(s: seq<T>, i: nat): seq<T>
    requires i < |s|
  {
    s[..i] + s[i + 1..]
  }

  lemma MapSplit<A, B>(f: A -> B, s: seq<A>, i: nat)
    requires i < |s|
    ensures multiset(Map(f, s)) == multiset(Map(f, Without(s, i))) + multiset{f(s[i])}
  {
    MultisetSplit(Map(f, s), i);
    assert Map(f, s)[..i] + Map(f, s)[i + 1..] == Map(f, Without(s, i));
  }

  lemma MapPermuted<A, B>(f: A -> B, a: seq<A>, b: seq<A>)
    requires multiset(a) == multiset(b)
    ensures multiset(Map(f, a)) == multiset(Map(f, b))
    decreases |a|
  {
    assert |a| == |multiset(a)| == |multiset(b)| == |b|;
    if a == [] {
      assert Map(f, a) == Map(f, b) == [];
    } else {
      assert a[0] in multiset(b);
      var i :| 0 <= i < |b| && b[i] == a[0];
      MultisetSplit(a, 0);
      MultisetSplit(b, i);
      assert multiset(Without(a, 0)) == multiset(Without(b, i));
      MapPermuted(f, Without(a, 0), Without(b, i));
      MapSplit(f, a, 0);
      MapSplit(f, b, i);
    }
  }

  function InsertByKey<T>(s: seq<T>, x: T, key: T -> int): seq<T> {
    if s == [] || key(x) <= key(s[0]) then [x] + s else [s[0]] + InsertByKey(s[1..], x, key)
  }

  /** `SortedBy`, stated along the recursion of `InsertByKey`. */
  ghost predicate Ascending<T>(s: seq<T>, key: T -> int) {
    s == [] || (Ascending(s[1..], key) && forall x :: x in s[1..] ==> key(s[0]) <= key(x))
  }

  lemma {:induction false} AscendingIsSorted<T>(s: seq<T>, key: T -> int)
    requires Ascending(s, key)
    ensures SortedBy(s, key)
  {
    if s == [] {
    } else {
      var rest := s[1..];
      AscendingIsSorted(rest, key);
      forall i, j | 0 <= i < j < |s| ensures key(s[i]) <= key(s[j]) {
        assert s[j] == rest[j - 1];
        if i > 0 { assert s[i] == rest[i - 1]; }
      }
    }
  }

  lemma {:induction false} InsertByKeyKeepsOrder<T>(s: seq<T>, x: T, key: T -> int)
    requires Ascending(s, key)
    ensures Ascending(InsertByKey(s, x, key), key)
    ensures multiset(InsertByKey(s, x, key)) == multiset(s) + multiset{x}
  {
    if s == [] {
    } else if key(x) <= key(s[0]) {
      assert s == [s[0]] + s[1..];
      assert ([x] + s)[1..] == s;
    } else {
      var rest, r := s[1..], InsertByKey(s[1..], x, key);
      assert s == [s[0]] + rest;
      InsertByKeyKeepsOrder(rest, x, key);
      assert ([s[0]] + r)[1..] == r;
      forall y | y in r ensures key(s[0]) <= key(y) {
        assert y in multiset(r);
      }
    }
  }

  /**
   * `sort.Slice`: rearranges `s` so that keys never decrease. Go's sort is not stable, so the
   * contract promises a sorted permutation and nothing about ties.
   */
  method Sort<T>(s: seq<T>, key: T -> int) returns (r: seq<T>)
    ensures multiset(r) == multiset(s)
    ensures SortedBy(r, key)
  {
    r := [];
    for i := 0 to |s|
      invariant multiset(r) == multiset(s[..i])
      invariant Ascending(r, key)
    {
      assert s[..i + 1] == s[..i] + [s[i]];
      InsertByKeyKeepsOrder(r, s[i], key);
      r := InsertByKey(r, s[i], key);
    }
    assert s[..|s|] == s;
    AscendingIsSorted(r, key);
  }
}

/** Runs of a state machine whose steps may be impossible. */
module Runs {
  import opened Collections

  /** The state after taking the steps in order, if each was possible when it was taken. */
  function RunFrom<S, A>(step: (S, A) -> Option<S>, s: S, actions: seq<A>): Option<S> {
    if actions == [] then Some(s) else
      match RunFrom(step, s, actions[..|actions| - 1])
      case None => None
      case Some(before) => step(before, actions[|actions| - 1])
  }

  /** What every step keeps, every run keeps. */
  lemma {:induction false} RunKeeps<S(!new), A(!new)>(step: (S, A) -> Option<S>, inv: S -> bool, s: S, actions: seq<A>)
    requires inv(s) && (forall x, a :: inv(x) && step(x, a).Some? ==> inv(step(x, a).value))
    requires RunFrom(step, s, actions).Some?
    ensures inv(RunFrom(step, s, actions).value)
  {
    if actions == [] {
    } else {
      RunKeeps(step, inv, s, actions[..|actions| - 1]);
    }
  }

  lemma {:induction false} RunSplit<S, A>(step: (S, A) -> Option<S>, s: S, a: seq<A>, b: seq<A>)
    ensures RunFrom(step, s, a + b) ==
      match RunFrom(step, s, a) case None => None case Some(u) => RunFrom(step, u, b)
    decreases b
  {
    if b == [] {
      assert a + b == a;
    } else {
      var init := b[..|b| - 1];
      assert (a + b)[..|a + b| - 1] == a + init;
      RunSplit(step, s, a, init);
    }
  }

  lemma RunStarts<S, A>(step: (S, A) -> Option<S>, s: S, a: A, actions: seq<A>)
    ensures RunFrom(step, s, [a] + actions) ==
      match step(s, a) case None => None case Some(u) => RunFrom(step, u, actions)
  {
    RunSplit(step, s, [a], actions);
    assert [a][..0] == [];
  }

  lemma RunExtends<S, A>(step: (S, A) -> Option<S>, s: S, actions: seq<A>, a: A)
    requires RunFrom(step, s, actions).Some?
    ensures RunFrom(step, s, actions + [a]) == step(RunFrom(step, s, actions).value, a)
  {
    assert (actions + [a])[..|actions|] == actions;
  }
}
