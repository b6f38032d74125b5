/**
 * Line alignments computed from git's zero-context hunks, crates/git-diff/src/diff.rs.
 * Arithmetic is on u32; an overflow is modelled as the result None.
 */
module DiffAlignment {
  import opened Collections
  import opened Words

  /** A hunk header as git gives it: 1-indexed, "after-line" starts for sides without lines. */
  datatype GitHunk = GitHunk(oldStart: u32, oldLines: u32, newStart: u32, newLines: u32)

  datatype Hunk = Hunk(oldStart: u32, oldLines: u32, newStart: u32, newLines: u32)

  datatype Span = Span(start: u32, end: u32)

  datatype Alignment = Alignment(before: Span, after: Span, changed: bool)

  datatype Content = Text(lines: seq<string>) | Binary | ImageBase64(mimeType: string, data: string)

  /** `lines.len() as u32`; a missing or non-text file has no lines. */
  function LineCount(file: Option<Content>): u32 {
    match file
    case Some(Text(lines)) => (|lines| % U32_LIMIT) as u32
    case _ => 0
  }

  function ZeroIndexed(start: u32, lines: u32): u32 {
    if start == 0 then 0 else if lines == 0 then start else start - 1
  }

  function Convert(h: GitHunk): Hunk {
    Hunk(ZeroIndexed(h.oldStart, h.oldLines), h.oldLines, ZeroIndexed(h.newStart, h.newLines), h.newLines)
  }

  method ConvertHunks(hunks: seq<GitHunk>) returns (r: seq<Hunk>)
    ensures r == Map(Convert, hunks)
  {
    r := [];
    for i := 0 to |hunks|
      invariant r == Map(Convert, hunks[..i])
    {
      var hunk := hunks[i];
      var oldStart := if hunk.oldStart == 0 then 0 else if hunk.oldLines == 0 then hunk.oldStart else hunk.oldStart - 1;
      var newStart := if hunk.newStart == 0 then 0 else if hunk.newLines == 0 then hunk.newStart else hunk.newStart - 1;
      assert Map(Convert, hunks[..i + 1]) == Map(Convert, hunks[..i]) + [Convert(hunk)];
      r := r + [Hunk(oldStart, hunk.oldLines, newStart, hunk.newLines)];
    }
    assert hunks[..|hunks|] == hunks;
  }

  function Plus(a: u32, b: u32): Option<u32> {
    if a as int + b as int < U32_LIMIT then Some((a as int + b as int) as u32) else None
  }

  function Prepend(al: seq<Alignment>, rest: Option<seq<Alignment>>): Option<seq<Alignment>> {
    match rest
    case None => None
    case Some(r) => Some(al + r)
  }

  /** What one hunk adds, behind position (`b`, `a`): the gap, if there is one, and the hunk. */
  function StepSpans(h: Hunk, b: u32, a: u32, bEnd: u32, aEnd: u32): seq<Alignment> {
    (if b < h.oldStart || a < h.newStart then [Alignment(Span(b, h.oldStart), Span(a, h.newStart), false)] else []) +
    [Alignment(Span(h.oldStart, bEnd), Span(h.newStart, aEnd), true)]
  }

  /** A gap on one side and an overlap on the other: the gap's subtraction goes below zero. */
  predicate Underflows(h: Hunk, b: u32, a: u32) {
    (b < h.oldStart || a < h.newStart) && (b > h.oldStart || a > h.newStart)
  }

  /** The alignments from a position on, for the hunks that are left. */
  function AlignFrom(hunks: seq<Hunk>, b: u32, a: u32, bLen: u32, aLen: u32): Option<seq<Alignment>> {
    if hunks == [] then
      Some(if b < bLen || a < aLen then [Alignment(Span(b, bLen), Span(a, aLen), false)] else [])
    else
      var h := hunks[0];
      var bEnd, aEnd := Plus(h.oldStart, h.oldLines), Plus(h.newStart, h.newLines);
      if Underflows(h, b, a) || bEnd == None || aEnd == None then None
      else
        Prepend(StepSpans(h, b, a, bEnd.value, aEnd.value), AlignFrom(hunks[1..], bEnd.value, aEnd.value, bLen, aLen))
  }

  lemma PrependTwice(x: seq<Alignment>, y: seq<Alignment>, rest: Option<seq<Alignment>>)
    ensures Prepend(x, Prepend(y, rest)) == Prepend(x + y, rest)
    ensures Prepend([], rest) == rest
  {
    if rest.Some? {
      assert x + (y + rest.value) == x + y + rest.value;
      assert [] + rest.value == rest.value;
    }
  }

  /** The whole computation; None if a subtraction or addition leaves u32. */
  function Aligned(hunks: seq<Hunk>, before: Option<Content>, after: Option<Content>): Option<seq<Alignment>> {
    var bLen, aLen := LineCount(before), LineCount(after);
    if bLen == 0 && aLen == 0 then Some([])
    else if hunks == [] then Some([Alignment(Span(0, bLen), Span(0, aLen), bLen == 0 || aLen == 0)])
    else AlignFrom(hunks, 0, 0, bLen, aLen)
  }

  method ComputeAlignments(hunks: seq<Hunk>, before: Option<Content>, after: Option<Content>)
    returns (r: Option<seq<Alignment>>)
    ensures r == Aligned(hunks, before, after)
  {
    var beforeLen, afterLen := LineCount(before), LineCount(after);
    if beforeLen == 0 && afterLen == 0 {
      return Some([]);
    }
    if |hunks| == 0 {
      if beforeLen == 0 {
        return Some([Alignment(Span(0, 0), Span(0, afterLen), true)]);
      } else if afterLen == 0 {
        return Some([Alignment(Span(0, beforeLen), Span(0, 0), true)]);
      } else {
        return Some([Alignment(Span(0, beforeLen), Span(0, afterLen), false)]);
      }
    }
    var alignments: seq<Alignment> := [];
    var beforePos: u32, afterPos: u32 := 0, 0;
    PrependTwice([], [], AlignFrom(hunks, 0, 0, beforeLen, afterLen));
    assert hunks[0..] == hunks;
    for i := 0 to |hunks|
      invariant Aligned(hunks, before, after) ==
        Prepend(alignments, AlignFrom(hunks[i..], beforePos, afterPos, beforeLen, afterLen))
    {
      var hunk := hunks[i];
      ghost var was, b0, a0 := alignments, beforePos, afterPos;
      assert hunks[i..][1..] == hunks[i + 1..];
      if beforePos < hunk.oldStart || afterPos < hunk.newStart {
        if hunk.oldStart < beforePos || hunk.newStart < afterPos {
          return None;  // subtraction below zero
        }
        var beforeGap, afterGap := hunk.oldStart - beforePos, hunk.newStart - afterPos;
        if beforeGap > 0 || afterGap > 0 {
          alignments := alignments + [Alignment(Span(beforePos, hunk.oldStart), Span(afterPos, hunk.newStart), false)];
        }
      }
      var hunkBeforeEnd, hunkAfterEnd := Plus(hunk.oldStart, hunk.oldLines), Plus(hunk.newStart, hunk.newLines);
      if hunkBeforeEnd == None || hunkAfterEnd == None {
        return None;  // addition above u32
      }
      alignments := alignments +
        [Alignment(Span(hunk.oldStart, hunkBeforeEnd.value), Span(hunk.newStart, hunkAfterEnd.value), true)];
      beforePos, afterPos := hunkBeforeEnd.value, hunkAfterEnd.value;
      assert alignments == was + StepSpans(hunk, b0, a0, beforePos, afterPos);
      PrependTwice(was, StepSpans(hunk, b0, a0, beforePos, afterPos),
                   AlignFrom(hunks[i + 1..], beforePos, afterPos, beforeLen, afterLen));
    }
    assert hunks[|hunks|..] == [] && alignments + [] == alignments;
    if beforePos < beforeLen || afterPos < afterLen {
      alignments := alignments + [Alignment(Span(beforePos, beforeLen), Span(afterPos, afterLen), false)];
    }
    return Some(alignments);
  }

  // ---------------------------------------------------------------------------------------
  // What a diff is: lines kept, then lines replaced, and so on, and lines kept at the end

  datatype Change = Change(kept: seq<string>, removed: seq<string>, added: seq<string>)

  datatype Script = Script(changes: seq<Change>, tail: seq<string>)

  ghost predicate ValidScript(s: Script) {
    forall i :: 0 <= i < |s.changes| ==> s.changes[i].removed != [] || s.changes[i].added != []
  }

  function Old(s: Script): seq<string>
    decreases |s.changes|
  {
    if s.changes == [] then s.tail
    else s.changes[0].kept + s.changes[0].removed + Old(Script(s.changes[1..], s.tail))
  }

  function New(s: Script): seq<string>
    decreases |s.changes|
  {
    if s.changes == [] then s.tail
    else s.changes[0].kept + s.changes[0].added + New(Script(s.changes[1..], s.tail))
  }

  /** Git counts lines from 1, but a side without lines is given by the line before it. */
  function HeaderStart(pos: nat, lines: nat): nat {
    if lines == 0 then pos else pos + 1
  }

  /** The hunk headers git prints for a script, with `b` and `a` lines of the two files already passed. */
  function Headers(changes: seq<Change>, b: nat, a: nat): (r: seq<(nat, nat, nat, nat)>)
    ensures |r| == |changes|
  {
    if changes == [] then [] else
      var c := changes[0];
      var b', a' := b + |c.kept|, a + |c.kept|;
      [(HeaderStart(b', |c.removed|), |c.removed|, HeaderStart(a', |c.added|), |c.added|)] +
      Headers(changes[1..], b' + |c.removed|, a' + |c.added|)
  }

  /** The same headers as u32, which they fit. */
  ghost predicate AsU32(hs: seq<(nat, nat, nat, nat)>, git: seq<GitHunk>) {
    && |git| == |hs|
    && forall i :: 0 <= i < |hs| ==>
         && git[i].oldStart as int == hs[i].0 && git[i].oldLines as int == hs[i].1
         && git[i].newStart as int == hs[i].2 && git[i].newLines as int == hs[i].3
  }

  /** The file on one side of a diff has the given lines; a file without lines may be absent. */
  ghost predicate HasLines(file: Option<Content>, lines: seq<string>) {
    |lines| < U32_LIMIT && (file == Some(Text(lines)) || (file == None && lines == []))
  }

  ghost predicate SpanInts(s: Span, start: int, end: int) {
    s.start as int == start && s.end as int == end
  }

  /** `al` lines up the rest of a script, `b` and `a` lines into the two files. */
  ghost predicate LinesUp(al: seq<Alignment>, s: Script, b: nat, a: nat)
    decreases |s.changes|
  {
    if s.changes == [] then
      if s.tail == [] then al == []
      else
        && |al| == 1 && !al[0].changed
        && SpanInts(al[0].before, b, b + |s.tail|) && SpanInts(al[0].after, a, a + |s.tail|)
    else
      var c, rest := s.changes[0], Script(s.changes[1..], s.tail);
      var k := |c.kept|;
      var gap := if k > 0 then 1 else 0;
      && |al| > gap
      && (k > 0 ==> !al[0].changed && SpanInts(al[0].before, b, b + k) && SpanInts(al[0].after, a, a + k))
      && al[gap].changed
      && SpanInts(al[gap].before, b + k, b + k + |c.removed|) && SpanInts(al[gap].after, a + k, a + k + |c.added|)
      && LinesUp(al[gap + 1..], rest, b + k + |c.removed|, a + k + |c.added|)
  }

  /** One hunk of a diff, converted and aligned. */
  lemma StepLinesUp(c: Change, g: GitHunk, b: u32, a: u32, b': u32, a': u32)
    requires c.removed != [] || c.added != []
    requires b' as int == b as int + |c.kept| + |c.removed| && a' as int == a as int + |c.kept| + |c.added|
    requires g.oldStart as int == HeaderStart(b as int + |c.kept|, |c.removed|) && g.oldLines as int == |c.removed|
    requires g.newStart as int == HeaderStart(a as int + |c.kept|, |c.added|) && g.newLines as int == |c.added|
    ensures var h := Convert(g);
      && h.oldStart as int == b as int + |c.kept| && h.newStart as int == a as int + |c.kept|
      && !Underflows(h, b, a) && Plus(h.oldStart, h.oldLines) == Some(b') && Plus(h.newStart, h.newLines) == Some(a')
  {
  }

  /** The spans of one change, in front of alignments of the rest. */
  lemma LinesUpPrepend(s: Script, h: Hunk, b: u32, a: u32, b': u32, a': u32, al: seq<Alignment>)
    requires ValidScript(s) && s.changes != []
    requires var c, k := s.changes[0], |s.changes[0].kept|;
      && b' as int == b as int + k + |c.removed| && a' as int == a as int + k + |c.added|
      && h.oldStart as int == b as int + k && h.newStart as int == a as int + k
      && h.oldLines as int == |c.removed| && h.newLines as int == |c.added|
    requires LinesUp(al, Script(s.changes[1..], s.tail), b' as int, a' as int)
    ensures LinesUp(StepSpans(h, b, a, b', a') + al, s, b as int, a as int)
  {
    var step := StepSpans(h, b, a, b', a');
    assert (step + al)[|step|..] == al && (step + al)[..|step|] == step;
  }

  lemma {:induction false} AlignFromLinesUp(s: Script, git: seq<GitHunk>, b: u32, a: u32, bLen: u32, aLen: u32)
    requires ValidScript(s) && AsU32(Headers(s.changes, b as int, a as int), git)
    requires bLen as int == b as int + |Old(s)| && aLen as int == a as int + |New(s)|
    ensures var r := AlignFrom(Map(Convert, git), b, a, bLen, aLen);
      r.Some? && LinesUp(r.value, s, b as int, a as int)
    decreases |s.changes|
  {
    var hunks := Map(Convert, git);
    if s.changes != [] {
      var c, rest := s.changes[0], Script(s.changes[1..], s.tail);
      var k := |c.kept|;
      assert |Old(s)| == k + |c.removed| + |Old(rest)| && |New(s)| == k + |c.added| + |New(rest)|;
      var b' := (b as int + k + |c.removed|) as u32;
      var a' := (a as int + k + |c.added|) as u32;
      RestHeaders(s.changes, git, b as int, a as int);
      StepLinesUp(c, git[0], b, a, b', a');
      AlignFromLinesUp(rest, git[1..], b', a', bLen, aLen);
      assert hunks[0] == Convert(git[0]) && hunks[1..] == Map(Convert, git[1..]);
      var al := AlignFrom(hunks[1..], b', a', bLen, aLen).value;
      LinesUpPrepend(s, hunks[0], b, a, b', a', al);
    }
  }

  lemma RestHeaders(changes: seq<Change>, git: seq<GitHunk>, b: nat, a: nat)
    requires changes != [] && AsU32(Headers(changes, b, a), git)
    ensures var c := changes[0];
      && AsU32(Headers(changes[1..], b + |c.kept| + |c.removed|, a + |c.kept| + |c.added|), git[1..])
      && git[0].oldStart as int == HeaderStart(b + |c.kept|, |c.removed|) && git[0].oldLines as int == |c.removed|
      && git[0].newStart as int == HeaderStart(a + |c.kept|, |c.added|) && git[0].newLines as int == |c.added|
  {
    var hs := Headers(changes, b, a);
    assert forall i :: 0 <= i < |git| - 1 ==> git[1..][i] == git[i + 1] && hs[1..][i] == hs[i + 1];
  }

  /**
   * For every diff, conversion and alignment stay within u32 and give back the diff's own
   * structure: the kept and the replaced stretches, in order, with their places in both files.
   */
  lemma DiffIsAligned(s: Script, git: seq<GitHunk>, before: Option<Content>, after: Option<Content>)
    requires ValidScript(s) && AsU32(Headers(s.changes, 0, 0), git)
    requires HasLines(before, Old(s)) && HasLines(after, New(s))
    ensures var r := Aligned(Map(Convert, git), before, after);
      r.Some? && LinesUp(r.value, s, 0, 0)
  {
    var bLen, aLen := LineCount(before), LineCount(after);
    assert bLen as int == |Old(s)| && aLen as int == |New(s)|;
    NoLinesNoChanges(s);
    if s.changes == [] {
      assert Map(Convert, git) == [];
    } else {
      AlignFromLinesUp(s, git, 0, 0, bLen, aLen);
      assert Aligned(Map(Convert, git), before, after) == AlignFrom(Map(Convert, git), 0, 0, bLen, aLen);
    }
  }

  lemma NoLinesNoChanges(s: Script)
    requires ValidScript(s)
    ensures Old(s) == [] && New(s) == [] ==> s.changes == [] && s.tail == []
    ensures s.changes == [] ==> Old(s) == New(s) == s.tail
  {
    if s.changes == [] {
    } else {
      assert s.changes[0].removed != [] || s.changes[0].added != [];
    }
  }

  // ---------------------------------------------------------------------------------------
  // What a viewer relies on

  /** One side's spans follow each other without gap or overlap from `from` to `to`. */
  ghost predicate Tiles(spans: seq<Span>, from: int, to: int) {
    if spans == [] then from == to
    else spans[0].start as int == from && spans[0].start <= spans[0].end && Tiles(spans[1..], spans[0].end as int, to)
  }

  function BeforeSpans(al: seq<Alignment>): seq<Span> { Map((x: Alignment) => x.before, al) }

  function AfterSpans(al: seq<Alignment>): seq<Span> { Map((x: Alignment) => x.after, al) }

  ghost predicate Within(s: Span, lines: seq<string>) {
    s.start <= s.end && s.end as int <= |lines|
  }

  function LinesOf(s: Span, lines: seq<string>): seq<string>
    requires Within(s, lines)
  {
    lines[s.start..s.end]
  }

  /** Every span lies in its file, and unchanged regions show the same lines on both sides. */
  ghost predicate Faithful(al: seq<Alignment>, before: seq<string>, after: seq<string>) {
    forall i :: 0 <= i < |al| ==>
      && Within(al[i].before, before) && Within(al[i].after, after)
      && (!al[i].changed ==> LinesOf(al[i].before, before) == LinesOf(al[i].after, after))
  }

  /** The old file with its changed regions replaced by the new ones. */
  ghost function Rebuilt(al: seq<Alignment>, before: seq<string>, after: seq<string>): seq<string>
    requires Faithful(al, before, after)
  {
    if al == [] then [] else
      assert forall i :: 0 <= i < |al| - 1 ==> al[1..][i] == al[i + 1];
      (if al[0].changed then LinesOf(al[0].after, after) else LinesOf(al[0].before, before)) +
      Rebuilt(al[1..], before, after)
  }

  ghost predicate Shows(al: seq<Alignment>, b: nat, a: nat, before: seq<string>, after: seq<string>) {
    && Tiles(BeforeSpans(al), b, |before|) && Tiles(AfterSpans(al), a, |after|)
    && Faithful(al, before, after)
    && a <= |after| && Rebuilt(al, before, after) == after[a..]
  }

  /** One more alignment in front. */
  lemma ShowsCons(x: Alignment, al: seq<Alignment>, b: nat, a: nat, before: seq<string>, after: seq<string>)
    requires Shows(al, x.before.end as int, x.after.end as int, before, after)
    requires x.before.start as int == b && x.after.start as int == a
    requires Within(x.before, before) && Within(x.after, after)
    requires !x.changed ==> LinesOf(x.before, before) == LinesOf(x.after, after)
    ensures Shows([x] + al, b, a, before, after)
  {
    var r := [x] + al;
    assert r[1..] == al;
    assert BeforeSpans(r)[1..] == BeforeSpans(al) && AfterSpans(r)[1..] == AfterSpans(al);
    assert after[a..] == LinesOf(x.after, after) + after[x.after.end..];
  }

  lemma SliceThree(lines: seq<string>, from: nat, x: seq<string>, y: seq<string>, z: seq<string>)
    requires from <= |lines| && lines[from..] == x + y + z
    ensures |lines| == from + |x| + |y| + |z|
    ensures lines[from..from + |x|] == x && lines[from + |x| + |y|..] == z
  {
    assert lines[from..][..|x|] == x && lines[from..][|x| + |y|..] == z;
  }

  lemma TailShows(al: seq<Alignment>, s: Script, b: nat, a: nat, before: seq<string>, after: seq<string>)
    requires s.changes == [] && LinesUp(al, s, b, a)
    requires b <= |before| && a <= |after| && before[b..] == Old(s) && after[a..] == New(s)
    ensures Shows(al, b, a, before, after)
  {
    if s.tail != [] {
      assert Shows([], |before|, |after|, before, after);
      ShowsCons(al[0], [], b, a, before, after);
      assert al == [al[0]] + [];
    }
  }

  /** A kept stretch, if there is one, in front of a replaced one. */
  lemma ChangeShows(al: seq<Alignment>, gap: nat, k: nat, b: nat, a: nat, before: seq<string>, after: seq<string>)
    requires |al| > gap && gap == if k > 0 then 1 else 0
    requires al[gap].changed && Within(al[gap].before, before) && Within(al[gap].after, after)
    requires al[gap].before.start as int == b + k && al[gap].after.start as int == a + k
    requires Shows(al[gap + 1..], al[gap].before.end as int, al[gap].after.end as int, before, after)
    requires b + k <= |before| && a + k <= |after| && before[b..b + k] == after[a..a + k]
    requires k > 0 ==> !al[0].changed && SpanInts(al[0].before, b, b + k) && SpanInts(al[0].after, a, a + k)
    ensures Shows(al, b, a, before, after)
  {
    ShowsCons(al[gap], al[gap + 1..], b + k, a + k, before, after);
    assert al[gap..] == [al[gap]] + al[gap + 1..];
    if k > 0 {
      ShowsCons(al[0], al[1..], b, a, before, after);
      assert al == [al[0]] + al[1..];
    } else {
      assert al[0..] == al;
    }
  }

  /** Both files start with the kept stretch, then differ, and go on with the rest of the diff. */
  lemma FilesSplit(s: Script, b: nat, a: nat, before: seq<string>, after: seq<string>)
    requires s.changes != []
    requires b <= |before| && a <= |after| && before[b..] == Old(s) && after[a..] == New(s)
    ensures var c, rest := s.changes[0], Script(s.changes[1..], s.tail);
      var b', a' := b + |c.kept| + |c.removed|, a + |c.kept| + |c.added|;
      && b' <= |before| && a' <= |after| && before[b'..] == Old(rest) && after[a'..] == New(rest)
      && before[b..b + |c.kept|] == after[a..a + |c.kept|]
  {
    var c, rest := s.changes[0], Script(s.changes[1..], s.tail);
    SliceThree(before, b, c.kept, c.removed, Old(rest));
    SliceThree(after, a, c.kept, c.added, New(rest));
  }

  lemma {:induction false} LinesUpShows(al: seq<Alignment>, s: Script, b: nat, a: nat, before: seq<string>,
                                        after: seq<string>)
    requires LinesUp(al, s, b, a)
    requires b <= |before| && a <= |after| && before[b..] == Old(s) && after[a..] == New(s)
    ensures Shows(al, b, a, before, after)
    decreases |s.changes|
  {
    if s.changes == [] {
      TailShows(al, s, b, a, before, after);
    } else {
      var c, rest := s.changes[0], Script(s.changes[1..], s.tail);
      var k := |c.kept|;
      var gap := if k > 0 then 1 else 0;
      FilesSplit(s, b, a, before, after);
      LinesUpShows(al[gap + 1..], rest, b + k + |c.removed|, a + k + |c.added|, before, after);
      ChangeShows(al, gap, k, b, a, before, after);
    }
  }

  /**
   * The alignments of a diff tile both files, agree on unchanged lines, and turn the old file
   * into the new one.
   */
  lemma AlignmentsShowDiff(s: Script, git: seq<GitHunk>, before: Option<Content>, after: Option<Content>)
    requires ValidScript(s) && AsU32(Headers(s.changes, 0, 0), git)
    requires HasLines(before, Old(s)) && HasLines(after, New(s))
    ensures var r := Aligned(Map(Convert, git), before, after);
      && r.Some?
      && Tiles(BeforeSpans(r.value), 0, |Old(s)|) && Tiles(AfterSpans(r.value), 0, |New(s)|)
      && Faithful(r.value, Old(s), New(s))
      && Rebuilt(r.value, Old(s), New(s)) == New(s)
  {
    DiffIsAligned(s, git, before, after);
    LinesUpShows(Aligned(Map(Convert, git), before, after).value, s, 0, 0, Old(s), New(s));
    assert New(s)[0..] == New(s);
  }
}
