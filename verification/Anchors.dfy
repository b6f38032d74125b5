/**
 * Re-finding a thread's selected text in an edited document. Strings are byte strings: one
 * character stands for one byte.
 */
module TextSearch {

  predicate OccursAt(s: string, t: string, i: int) {
    0 <= i <= |s| - |t| && s[i..i + |t|] == t
  }

  /** `strings.Index(s[from..], t)`, as an offset into `s`; -1 if there is none. */
  function IndexFrom(s: string, t: string, from: nat): (r: int)
    ensures r == -1 || from <= r <= |s| - |t|
    decreases |s| - from
  {
    if from > |s| then -1 else if OccursAt(s, t, from) then from else IndexFrom(s, t, from + 1)
  }

  lemma {:induction false} IndexIsLeftmost(s: string, t: string, from: nat)
    ensures var r := IndexFrom(s, t, from);
      && (r != -1 ==> OccursAt(s, t, r))
      && (forall i :: from <= i && (r == -1 || i < r) ==> !OccursAt(s, t, i))
    decreases |s| - from
  {
    if from <= |s| && !OccursAt(s, t, from) {
      IndexIsLeftmost(s, t, from + 1);
    }
  }

  /** `strings.Count`: occurrences that do not overlap, taken greedily from the left. */
  function Count(s: string, t: string, from: nat): nat
    requires t != ""
    decreases |s| - from
  {
    var i := IndexFrom(s, t, from);
    if i == -1 then 0 else 1 + Count(s, t, i + |t|)
  }

  /** Every position from `from` on at which `t` occurs, overlapping or not, in order. */
  ghost function Occurrences(s: string, t: string, from: nat): seq<nat>
    decreases |s| - from
  {
    if from > |s| then [] else
      var rest := Occurrences(s, t, from + 1);
      if OccursAt(s, t, from) then [from] + rest else rest
  }

  /** `r` lists the positions from `from` on, in order. */
  ghost predicate ListsOccurrences(s: string, t: string, from: nat, r: seq<nat>) {
    && (forall i: nat :: i in r <==> from <= i && OccursAt(s, t, i))
    && (forall j, k :: 0 <= j < k < |r| ==> r[j] < r[k])
  }

  lemma {:induction false} OccurrencesExact(s: string, t: string, from: nat)
    ensures ListsOccurrences(s, t, from, Occurrences(s, t, from))
    decreases |s| - from
  {
    if from > |s| {
    } else {
      OccurrencesExact(s, t, from + 1);
      PrependOccurrence(s, t, from, Occurrences(s, t, from + 1));
    }
  }

  lemma PrependOccurrence(s: string, t: string, from: nat, rest: seq<nat>)
    requires ListsOccurrences(s, t, from + 1, rest)
    ensures ListsOccurrences(s, t, from, if OccursAt(s, t, from) then [from] + rest else rest)
  {
    assert forall k :: 0 <= k < |rest| ==> rest[k] in rest;
  }

  /** Occurrences start at what `Index` finds, and continue one position later. */
  lemma {:induction false} OccurrencesStart(s: string, t: string, from: nat)
    ensures IndexFrom(s, t, from) == -1 ==> Occurrences(s, t, from) == []
    ensures var i := IndexFrom(s, t, from); i != -1 ==> Occurrences(s, t, from) == [i] + Occurrences(s, t, i + 1)
    decreases |s| - from
  {
    if from > |s| {
      OccurrencesPast(s, t, from);
    } else if OccursAt(s, t, from) {
      assert IndexFrom(s, t, from) == from;
    } else {
      OccurrencesStart(s, t, from + 1);
    }
  }

  lemma OccurrencesPast(s: string, t: string, from: nat)
    requires from > |s|
    ensures Occurrences(s, t, from) == []
  {
  }

  lemma OccurrencesNext(s: string, t: string, from: nat)
    ensures Occurrences(s, t, from) ==
      (if OccursAt(s, t, from) then [from] else []) + Occurrences(s, t, from + 1)
  {
    if from > |s| {
      OccurrencesPast(s, t, from + 1);
    }
    assert [] + Occurrences(s, t, from + 1) == Occurrences(s, t, from + 1);
  }

  lemma {:induction false} OccurrencesSkip(s: string, t: string, from: nat, k: nat)
    ensures |Occurrences(s, t, from + k)| <= |Occurrences(s, t, from)|
    decreases k
  {
    if k == 0 {
    } else {
      OccurrencesNext(s, t, from);
      OccurrencesSkip(s, t, from + 1, k - 1);
    }
  }

  lemma CountNext(s: string, t: string, from: nat)
    requires t != ""
    ensures var i := IndexFrom(s, t, from);
      Count(s, t, from) == if i == -1 then 0 else 1 + Count(s, t, i + |t|)
  {
  }

  /** The greedy count, from the first occurrence on, and the occurrences behind it. */
  lemma CountAgainst(s: string, t: string, from: nat, i: nat)
    requires t != "" && i == IndexFrom(s, t, from)
    ensures from <= i < |s| && Count(s, t, from) == 1 + Count(s, t, i + |t|)
    ensures |Occurrences(s, t, from)| == 1 + |Occurrences(s, t, i + 1)| >= 1 + |Occurrences(s, t, i + |t|)|
  {
    CountNext(s, t, from);
    OccurrencesStart(s, t, from);
    OccurrencesSkip(s, t, i + 1, |t| - 1);
    assert i + 1 + (|t| - 1) == i + |t|;
  }

  lemma {:induction false} CountAtMostOccurrences(s: string, t: string, from: nat)
    requires t != ""
    ensures Count(s, t, from) <= |Occurrences(s, t, from)|
    decreases |s| - from
  {
    var i := IndexFrom(s, t, from);
    if i == -1 {
      CountNext(s, t, from);
    } else {
      CountAgainst(s, t, from, i);
      CountAtMostOccurrences(s, t, i + |t|);
    }
  }

  lemma NothingCounted(s: string, t: string)
    requires t != ""
    ensures Count(s, t, 0) == 0 <==> forall i :: !OccursAt(s, t, i)
  {
    CountNext(s, t, 0);
    IndexIsLeftmost(s, t, 0);
  }

  ghost predicate NoOverlap(s: string, t: string) {
    forall i, j :: OccursAt(s, t, i) && OccursAt(s, t, j) && i < j ==> i + |t| <= j
  }

  /** Without overlaps the greedy count is the number of occurrences. */
  lemma {:induction false} CountIsExact(s: string, t: string, from: nat)
    requires t != "" && NoOverlap(s, t)
    ensures Count(s, t, from) == |Occurrences(s, t, from)|
    decreases |s| - from
  {
    var i := IndexFrom(s, t, from);
    if i == -1 {
      CountNext(s, t, from);
      OccurrencesStart(s, t, from);
    } else {
      OccurrencesPastFirst(s, t, from);
      CountIsExact(s, t, i + |t|);
    }
  }

  lemma OccurrencesPastFirst(s: string, t: string, from: nat)
    requires t != "" && NoOverlap(s, t) && IndexFrom(s, t, from) != -1
    ensures var i := IndexFrom(s, t, from);
      && from <= i < |s|
      && Count(s, t, from) == 1 + Count(s, t, i + |t|)
      && |Occurrences(s, t, from)| == 1 + |Occurrences(s, t, i + |t|)|
  {
    var i := IndexFrom(s, t, from);
    CountAgainst(s, t, from, i);
    NoneInside(s, t, from);
    NoneBetween(s, t, i + 1, |t| - 1);
    assert i + 1 + (|t| - 1) == i + |t|;
  }

  lemma NoneInside(s: string, t: string, from: nat)
    requires t != "" && NoOverlap(s, t)
    ensures var i := IndexFrom(s, t, from);
      i != -1 ==> forall k :: i + 1 <= k < i + |t| ==> !OccursAt(s, t, k)
  {
    IndexIsLeftmost(s, t, from);
  }

  lemma {:induction false} NoneBetween(s: string, t: string, from: nat, k: nat)
    requires forall i :: from <= i < from + k ==> !OccursAt(s, t, i)
    ensures Occurrences(s, t, from) == Occurrences(s, t, from + k)
    decreases k
  {
    if k == 0 {
    } else {
      OccurrencesNext(s, t, from);
      NoneBetween(s, t, from + 1, k - 1);
    }
  }
}

/** apps/penpal/internal/comments/anchor.go, and the anchor computed by `penpal_create_thread`. */
module Anchors {
  import opened TextSearch

  datatype Anchor = Anchor(selectedText: string, before: string, after: string, headingPath: string, startLine: int)

  datatype AnchoredThread = AnchoredThread(id: string, anchor: Anchor)

  /** The text around position `i` is what the anchor recorded; an empty record matches anything. */
  predicate ContextMatches(s: string, a: Anchor, i: nat)
    requires OccursAt(s, a.selectedText, i)
  {
    var end := i + |a.selectedText|;
    && |a.before| <= i && s[i - |a.before|..i] == a.before
    && end + |a.after| <= |s| && s[end..end + |a.after|] == a.after
  }

  ghost predicate MatchAt(s: string, a: Anchor, i: int) {
    OccursAt(s, a.selectedText, i) && ContextMatches(s, a, i)
  }

  /** `i` is the leftmost occurrence whose context matches. */
  ghost predicate LeftmostMatch(s: string, a: Anchor, i: int) {
    MatchAt(s, a, i) && forall j :: j < i ==> !MatchAt(s, a, j)
  }

  /** The documented answer: the leftmost occurrence in context, else the leftmost, else -1. */
  ghost predicate Documented(s: string, a: Anchor, r: int) {
    if a.selectedText == "" || (forall i :: !OccursAt(s, a.selectedText, i)) then r == -1
    else if exists i :: MatchAt(s, a, i) then LeftmostMatch(s, a, r)
    else r == IndexFrom(s, a.selectedText, 0)
  }

  /**
   * The guard of the search loop: if any occurrence matches in context, then one of the first
   * `strings.Count` occurrences does. The count ignores overlaps but the loop steps one byte at
   * a time through all of them.
   */
  ghost predicate InReach(s: string, a: Anchor)
    requires a.selectedText != ""
  {
    (exists i :: MatchAt(s, a, i)) ==> exists i :: Tried(s, a, i) && MatchAt(s, a, i)
  }

  /** The loop looks at occurrence `i`. */
  ghost predicate Tried(s: string, a: Anchor, i: int)
    requires a.selectedText != ""
  {
    var all := Occurrences(s, a.selectedText, 0);
    exists k :: 0 <= k < Count(s, a.selectedText, 0) && k < |all| && all[k] == i
  }

  /** What the code computes, for every input. */
  ghost predicate Resolved(s: string, a: Anchor, r: int) {
    if a.selectedText == "" || (forall i :: !OccursAt(s, a.selectedText, i)) then r == -1
    else if exists i :: Tried(s, a, i) && MatchAt(s, a, i) then LeftmostMatch(s, a, r)
    else r == IndexFrom(s, a.selectedText, 0)
  }

  method CheckContext(s: string, a: Anchor, abs: nat) returns (ok: bool)
    requires OccursAt(s, a.selectedText, abs)
    ensures ok <==> MatchAt(s, a, abs)
  {
    var beforeMatch, afterMatch := true, true;
    if a.before != "" {
      beforeMatch := abs >= |a.before| && s[abs - |a.before|..abs] == a.before;
    }
    if a.after != "" {
      var afterStart := abs + |a.selectedText|;
      afterMatch := afterStart + |a.after| <= |s| && s[afterStart..afterStart + |a.after|] == a.after;
    }
    ok := beforeMatch && afterMatch;
  }

  method ResolveAnchor(s: string, a: Anchor) returns (r: int)
    ensures Resolved(s, a, r)
  {
    var t := a.selectedText;
    if t == "" {
      return -1;
    }
    var count := Count(s, t, 0);
    SearchStarts(s, a);
    if count == 0 {
      NothingCounted(s, t);
      return -1;
    }
    if count == 1 {
      OnlyFirstTried(s, a);
      return IndexFrom(s, t, 0);
    }
    r := IndexFrom(s, t, 0);
    if a.before != "" || a.after != "" {
      var offset, i := 0, 0;
      while i < count
        invariant 0 <= i <= count && 0 <= offset
        invariant Behind(s, a, i, offset)
      {
        var abs := IndexFrom(s, t, offset);
        NextCandidate(s, a, i, offset);
        if abs == -1 {
          assert false;  // at least `count` occurrences exist, so none of the searches fails
          break;
        }
        var ok := CheckContext(s, a, abs);
        if ok {
          FirstMatchIsLeftmost(s, a, i, offset);
          return abs;
        }
        offset := abs + 1;
        i := i + 1;
      }
      AllTried(s, a, offset);
    } else {
      OnlyFirstTried(s, a);
    }
  }

  /** After `i` rounds the next search starts behind the `i`-th occurrence, and none so far matched. */
  ghost predicate Behind(s: string, a: Anchor, i: nat, offset: nat) {
    var all := Occurrences(s, a.selectedText, 0);
    && i <= |all|
    && Occurrences(s, a.selectedText, offset) == all[i..]
    && forall k :: 0 <= k < i ==> !MatchAt(s, a, all[k])
  }

  lemma SearchStarts(s: string, a: Anchor)
    requires a.selectedText != ""
    ensures Behind(s, a, 0, 0)
    ensures Count(s, a.selectedText, 0) > 0 ==> IndexFrom(s, a.selectedText, 0) != -1
  {
    CountNext(s, a.selectedText, 0);
    var all := Occurrences(s, a.selectedText, 0);
    assert all[0..] == all;
  }

  lemma NextCandidate(s: string, a: Anchor, i: nat, offset: nat)
    requires a.selectedText != "" && i < Count(s, a.selectedText, 0) && Behind(s, a, i, offset)
    ensures var abs := IndexFrom(s, a.selectedText, offset);
      && abs != -1 && OccursAt(s, a.selectedText, abs)
      && Tried(s, a, abs)
      && (!MatchAt(s, a, abs) ==> Behind(s, a, i + 1, abs + 1))
  {
    CountAtMostOccurrences(s, a.selectedText, 0);
    OccurrencesStart(s, a.selectedText, offset);
    IndexIsLeftmost(s, a.selectedText, offset);
    var all := Occurrences(s, a.selectedText, 0);
    assert all[i] == all[i..][0];
    assert all[i..][1..] == all[i + 1..];
  }

  lemma FirstMatchIsLeftmost(s: string, a: Anchor, i: nat, offset: nat)
    requires a.selectedText != "" && i < Count(s, a.selectedText, 0) && Behind(s, a, i, offset)
    requires MatchAt(s, a, IndexFrom(s, a.selectedText, offset))
    ensures Resolved(s, a, IndexFrom(s, a.selectedText, offset))
  {
    var abs := IndexFrom(s, a.selectedText, offset);
    var all := Occurrences(s, a.selectedText, 0);
    NextCandidate(s, a, i, offset);
    OccurrencesStart(s, a.selectedText, offset);
    OccurrencesExact(s, a.selectedText, 0);
    assert all[i] == all[i..][0] == abs;
    forall j | MatchAt(s, a, j) ensures abs <= j {
      var k :| 0 <= k < |all| && all[k] == j;
    }
  }

  lemma AllTried(s: string, a: Anchor, offset: nat)
    requires a.selectedText != "" && IndexFrom(s, a.selectedText, 0) != -1
    requires Behind(s, a, Count(s, a.selectedText, 0), offset)
    ensures Resolved(s, a, IndexFrom(s, a.selectedText, 0))
  {
    FirstIsTried(s, a);
  }

  /** Whatever is found, the leftmost occurrence is always among those tried. */
  lemma FirstIsTried(s: string, a: Anchor)
    requires a.selectedText != "" && IndexFrom(s, a.selectedText, 0) != -1
    ensures var first := IndexFrom(s, a.selectedText, 0);
      && OccursAt(s, a.selectedText, first) && Tried(s, a, first)
      && (forall j :: j < first ==> !OccursAt(s, a.selectedText, j))
  {
    var t := a.selectedText;
    var first := IndexFrom(s, t, 0);
    IndexIsLeftmost(s, t, 0);
    OccurrencesStart(s, t, 0);
    CountAtMostOccurrences(s, t, 0);
    assert Occurrences(s, t, 0)[0] == first;
  }

  /** When only one occurrence is tried, or the context is empty, the first one is the answer. */
  lemma OnlyFirstTried(s: string, a: Anchor)
    requires a.selectedText != "" && IndexFrom(s, a.selectedText, 0) != -1
    requires Count(s, a.selectedText, 0) == 1 || (a.before == "" && a.after == "")
    ensures Resolved(s, a, IndexFrom(s, a.selectedText, 0))
  {
    var first := IndexFrom(s, a.selectedText, 0);
    FirstIsTried(s, a);
    if Count(s, a.selectedText, 0) == 1 {
      OccurrencesStart(s, a.selectedText, 0);
      assert forall i :: Tried(s, a, i) ==> i == first;
    } else {
      assert MatchAt(s, a, first);
    }
  }

  /** -1 exactly when the text is empty or absent, whatever the context. */
  lemma NotFoundIffAbsent(s: string, a: Anchor, r: int)
    requires Resolved(s, a, r)
    ensures r == -1 <==> a.selectedText == "" || forall i :: !OccursAt(s, a.selectedText, i)
    ensures r != -1 ==> OccursAt(s, a.selectedText, r)
  {
    IndexIsLeftmost(s, a.selectedText, 0);
  }

  /** The code gives the documented answer exactly when its loop reaches a context match, if there is one. */
  lemma DocumentedIffInReach(s: string, a: Anchor, r: int)
    requires a.selectedText != "" && Resolved(s, a, r)
    ensures Documented(s, a, r) <==> InReach(s, a)
  {
    IndexIsLeftmost(s, a.selectedText, 0);
    if (exists i :: MatchAt(s, a, i)) && !InReach(s, a) {
      var i :| MatchAt(s, a, i);
      assert OccursAt(s, a.selectedText, i);
      FirstIsTried(s, a);
      assert !MatchAt(s, a, r);
    }
  }

  lemma DocumentedWithoutOverlap(s: string, a: Anchor, r: int)
    requires Resolved(s, a, r) && NoOverlap(s, a.selectedText)
    ensures Documented(s, a, r)
  {
    if a.selectedText != "" {
      CountIsExact(s, a.selectedText, 0);
      if exists i :: MatchAt(s, a, i) {
        OccurrencesExact(s, a.selectedText, 0);
        var i :| MatchAt(s, a, i);
        var all := Occurrences(s, a.selectedText, 0);
        var k :| 0 <= k < |all| && all[k] == i;
        assert Tried(s, a, i);
      }
      DocumentedIffInReach(s, a, r);
    }
  }

  /** Overlaps do break it: in "aaa" the "aa" preceded by "a" is at 1, but only position 0 is tried. */
  lemma OverlapCounterexample()
    ensures var a := Anchor("aa", "a", "", "", 0);
      LeftmostMatch("aaa", a, 1) && !InReach("aaa", a) && Resolved("aaa", a, 0)
  {
    var s, a := "aaa", Anchor("aa", "a", "", "", 0);
    assert OccursAt(s, "aa", 0);
    assert s[1..3] == "aa" && s[0..1] == "a";
    assert MatchAt(s, a, 1) && !MatchAt(s, a, 0);
    assert IndexFrom(s, "aa", 0) == 0;
    assert IndexFrom(s, "aa", 2) == IndexFrom(s, "aa", 3) == IndexFrom(s, "aa", 4) == -1;
    assert Count(s, "aa", 0) == 1;
    OnlyFirstTried(s, a);
    OccurrencesStart(s, "aa", 0);
    assert forall i :: Tried(s, a, i) ==> i == 0;
  }

  // ---------------------------------------------------------------------------------------
  // Lines

  /** The 1-indexed line of byte `offset`. */
  function LineOf(s: string, offset: nat): nat
    requires offset <= |s|
  {
    if offset == 0 then 1 else LineOf(s, offset - 1) + if s[offset - 1] == '\n' then 1 else 0
  }

  /** A thread's line: where its text is found, else the stored line, else -1. */
  ghost predicate LineFor(s: string, a: Anchor, line: int) {
    exists r :: Resolved(s, a, r) &&
      line == if 0 <= r <= |s| then LineOf(s, r) else if a.startLine > 0 then a.startLine else -1
  }

  method CountLines(s: string, offset: nat) returns (line: nat)
    requires offset <= |s|
    ensures line == LineOf(s, offset)
  {
    line := 1;
    var i := 0;
    while i < offset && i < |s|
      invariant 0 <= i <= offset
      invariant line == LineOf(s, i)
    {
      if s[i] == '\n' {
        line := line + 1;
      }
      i := i + 1;
    }
  }

  method ResolveAnchorsToLines(threads: seq<AnchoredThread>, s: string) returns (lines: map<string, int>)
    ensures lines.Keys == set t | t in threads :: t.id
    ensures forall i :: 0 <= i < |threads| && LastWithId(threads, |threads|, i) ==>
      LineFor(s, threads[i].anchor, lines[threads[i].id])
  {
    lines := map[];
    for n := 0 to |threads|
      invariant lines.Keys == set t | t in threads[..n] :: t.id
      invariant LinesAreFor(threads, s, n, lines)
    {
      var t := threads[n];
      assert threads[..n + 1] == threads[..n] + [t];
      var line := LineOfThread(t, s);
      OneMoreLine(threads, s, n, lines, line);
      lines := lines[t.id := line];
    }
    assert threads[..|threads|] == threads;
  }

  /** Thread `i` is the last of the first `n` with its ID. */
  ghost predicate LastWithId(threads: seq<AnchoredThread>, n: nat, i: nat)
    requires i < n <= |threads|
  {
    forall j :: i < j < n ==> threads[j].id != threads[i].id
  }

  /** The last of the first `n` threads with an ID decides its line. */
  ghost predicate LinesAreFor(threads: seq<AnchoredThread>, s: string, n: nat, lines: map<string, int>)
    requires n <= |threads|
  {
    forall i :: 0 <= i < n && LastWithId(threads, n, i) ==>
      threads[i].id in lines && LineFor(s, threads[i].anchor, lines[threads[i].id])
  }

  lemma OneMoreLine(threads: seq<AnchoredThread>, s: string, n: nat, lines: map<string, int>, line: int)
    requires n < |threads| && LinesAreFor(threads, s, n, lines) && LineFor(s, threads[n].anchor, line)
    ensures LinesAreFor(threads, s, n + 1, lines[threads[n].id := line])
  {
    forall i | 0 <= i < n && LastWithId(threads, n + 1, i)
      ensures LastWithId(threads, n, i) && threads[i].id != threads[n].id
    {
    }
  }

  method LineOfThread(t: AnchoredThread, s: string) returns (line: int)
    ensures LineFor(s, t.anchor, line)
  {
    var offset := ResolveAnchor(s, t.anchor);
    NotFoundIffAbsent(s, t.anchor, offset);
    if offset >= 0 {
      line := CountLines(s, offset);
    } else if t.anchor.startLine > 0 {
      line := t.anchor.startLine;
    } else {
      line := -1;
    }
  }

  // ---------------------------------------------------------------------------------------
  // Creating an anchor

  const CONTEXT_BYTES := 80

  /** The anchor records the surroundings and the line of the first occurrence of its text. */
  ghost predicate AnchoredAtFirst(s: string, a: Anchor) {
    var i := IndexFrom(s, a.selectedText, 0);
    if i == -1 then a.startLine == 0 else MatchAt(s, a, i) && a.startLine == LineOf(s, i)
  }

  method CreateAnchor(s: string, selectedText: string, headingPath: string) returns (a: Anchor)
    ensures a.selectedText == selectedText && a.headingPath == headingPath
    ensures IndexFrom(s, selectedText, 0) == -1 ==> a.before == a.after == "" && a.startLine == 0
    ensures AnchoredAtFirst(s, a)
    ensures |a.before| <= CONTEXT_BYTES && |a.after| <= CONTEXT_BYTES
    ensures var i := IndexFrom(s, selectedText, 0); i != -1 ==>
      && (|a.before| == CONTEXT_BYTES || |a.before| == i)
      && (|a.after| == CONTEXT_BYTES || |a.after| == |s| - i - |selectedText|)
  {
    a := Anchor(selectedText, "", "", headingPath, 0);
    var idx := IndexFrom(s, selectedText, 0);
    IndexIsLeftmost(s, selectedText, 0);
    if idx >= 0 {
      var beforeStart := idx - CONTEXT_BYTES;
      if beforeStart < 0 {
        beforeStart := 0;
      }
      var afterStart := idx + |selectedText|;
      var afterEnd := afterStart + CONTEXT_BYTES;
      if afterEnd > |s| {
        afterEnd := |s|;
      }
      var line := CountLines(s, idx);
      a := Anchor(selectedText, s[beforeStart..idx], s[afterStart..afterEnd], headingPath, line);
    }
  }

  /**
   * Creating an anchor and resolving it on the same document: the offset of the text, and the
   * line that was stored. If the text is absent, -1 both times.
   */
  lemma CreateThenResolve(s: string, a: Anchor, r: int, line: int)
    requires a.selectedText != "" && AnchoredAtFirst(s, a)
    requires Resolved(s, a, r) && LineFor(s, a, line)
    ensures r == IndexFrom(s, a.selectedText, 0)
    ensures line == if r == -1 then -1 else a.startLine
  {
    var i := IndexFrom(s, a.selectedText, 0);
    IndexIsLeftmost(s, a.selectedText, 0);
    if i != -1 {
      FirstIsTried(s, a);
    }
    forall q | Resolved(s, a, q) ensures q == i {
    }
  }
}
