/**
 * Reassembly of JSON messages from a remote agent's output in crates/acp-client/src/driver.rs.
 * Text is already decoded; how JSON text is judged is a parameter.
 */
module RemoteFraming {
  import opened Characters
  import opened Splitting

  /** serde_json's verdict: a complete value, an error at end of input, any other error. */
  datatype Verdict = Valid | Incomplete | Malformed

  datatype Outcome = Emit(line: string) | Pending | Dropped

  const MAX_PENDING_BYTES := 256 * 1024
  const RS: char := '\U{1e}'

  function Utf8Length(c: char): nat {
    var n := c as int;
    if n < 0x80 then 1 else if n < 0x800 then 2 else if n < 0x1_0000 then 3 else 4
  }

  function ByteLength(s: string): nat {
    if s == "" then 0 else ByteLength(s[..|s| - 1]) + Utf8Length(s[|s| - 1])
  }

  /** Unicode White_Space, as used by `str::trim`. */
  predicate IsWhitespace(c: char) {
    var n := c as int;
    || 0x9 <= n <= 0xd || n == 0x20 || n == 0x85 || n == 0xa0 || n == 0x1680
    || 0x2000 <= n <= 0x200a || n == 0x2028 || n == 0x2029 || n == 0x202f || n == 0x205f || n == 0x3000
  }

  predicate Blank(s: string) {
    forall i | 0 <= i < |s| :: IsWhitespace(s[i])
  }

  /** `trim_end_matches(['\r', '\n'])`. */
  function TrimLineEnd(s: string): string {
    if s != "" && (s[|s| - 1] == '\r' || s[|s| - 1] == '\n') then TrimLineEnd(s[..|s| - 1]) else s
  }

  function Sanitize(s: string): string {
    if s == "" then "" else
      Sanitize(s[..|s| - 1]) + if s[|s| - 1] == NUL || s[|s| - 1] == RS then "" else [s[|s| - 1]]
  }

  function ChunkOf(segment: string): string {
    Sanitize(TrimLineEnd(segment))
  }

  function CapPending(p: string): (string, Outcome) {
    if ByteLength(p) > MAX_PENDING_BYTES then ("", Dropped) else (p, Pending)
  }

  /** What one non-empty chunk does to the pending text. */
  function ConsumeChunk(classify: string -> Verdict, pending: string, chunk: string): (string, Outcome) {
    var joined := pending + chunk;
    match classify(joined)
    case Valid => ("", Emit(joined))
    case Incomplete => CapPending(joined)
    case Malformed =>
      match classify(chunk)
      case Valid => ("", Emit(chunk))
      case Incomplete => CapPending(chunk)
      case Malformed => ("", Dropped)
  }

  function Consume(classify: string -> Verdict, pending: string, segment: string): (string, Outcome) {
    if ChunkOf(segment) == "" then (pending, Pending) else ConsumeChunk(classify, pending, ChunkOf(segment))
  }

  /** Lines with their terminators, as `read_until(b'\n')` yields them. */
  function Lines(s: string): (r: seq<string>)
    ensures s != "" ==> r != []
  {
    if s == "" then []
    else
      var rest := Lines(s[1..]);
      if s[0] == '\n' || rest == [] then [[s[0]]] + rest
      else [[s[0]] + rest[0]] + rest[1..]
  }

  predicate IsSeparator(c: char) { c == RS }

  function LineSegments(lines: seq<string>): seq<string> {
    if lines == [] then [] else SplitAt(lines[0], IsSeparator) + LineSegments(lines[1..])
  }

  /** Pending text and emitted lines after consuming segments in order; blank ones are skipped. */
  datatype Progress = Progress(pending: string, emitted: seq<string>)

  function FeedOne(classify: string -> Verdict, p: Progress, segment: string): Progress {
    if Blank(segment) then p else
      var (pending, outcome) := Consume(classify, p.pending, segment);
      Progress(pending, p.emitted + if outcome.Emit? then [outcome.line] else [])
  }

  function Feed(classify: string -> Verdict, p: Progress, segments: seq<string>): Progress {
    if segments == [] then p
    else FeedOne(classify, Feed(classify, p, segments[..|segments| - 1]), segments[|segments| - 1])
  }

  /** What comes out of a whole stream. */
  function Normalized(classify: string -> Verdict, stream: string): Progress {
    Feed(classify, Progress("", []), LineSegments(Lines(stream)))
  }

  // ---------------------------------------------------------------------------------------

  class Reassembler {
    var pending: string

    constructor ()
      ensures pending == ""
    {
      pending := "";
    }

    method ConsumeLine(classify: string -> Verdict, rawLine: string) returns (outcome: Outcome)
      modifies this
      ensures (pending, outcome) == Consume(classify, old(pending), rawLine)
    {
      var line := TrimLineEnd(rawLine);
      if line == "" {
        return Pending;
      }
      var chunk := Sanitize(line);
      if chunk == "" {
        return Pending;
      }
      pending := pending + chunk;
      assert "" + chunk == chunk;
      match classify(pending) {
        case Valid =>
          outcome := Emit(pending);
          pending := "";
        case Incomplete =>
          if ByteLength(pending) > MAX_PENDING_BYTES {
            pending := "";
            outcome := Dropped;
          } else {
            outcome := Pending;
          }
        case Malformed =>
          match classify(chunk) {
            case Valid =>
              pending := "";
              outcome := Emit(chunk);
            case Incomplete =>
              pending := "";
              pending := pending + chunk;
              if ByteLength(pending) > MAX_PENDING_BYTES {
                pending := "";
                outcome := Dropped;
              } else {
                outcome := Pending;
              }
            case Malformed =>
              pending := "";
              outcome := Dropped;
          }
      }
    }
  }

  /** The inner loop, over the segments of one line. */
  method ConsumeSegments(r: Reassembler, classify: string -> Verdict, segments: seq<string>, emitted: seq<string>)
    returns (emitted': seq<string>)
    modifies r
    ensures Progress(r.pending, emitted') == Feed(classify, Progress(old(r.pending), emitted), segments)
  {
    emitted' := emitted;
    for j := 0 to |segments|
      invariant Progress(r.pending, emitted') == Feed(classify, Progress(old(r.pending), emitted), segments[..j])
    {
      assert segments[..j + 1][..j] == segments[..j];
      if !Blank(segments[j]) {
        var outcome := r.ConsumeLine(classify, segments[j]);
        if outcome.Emit? {
          emitted' := emitted' + [outcome.line];
        }
      }
    }
    assert segments[..|segments|] == segments;
  }

  method NormalizeRemoteStdout(classify: string -> Verdict, stream: string) returns (emitted: seq<string>)
    ensures emitted == Normalized(classify, stream).emitted
  {
    var lines := Lines(stream);
    var r := new Reassembler();
    emitted := [];
    for i := 0 to |lines|
      invariant fresh(r)
      invariant Progress(r.pending, emitted) == Feed(classify, Progress("", []), LineSegments(lines[..i]))
    {
      LineSegmentsAppend(lines, i);
      FeedConcat(classify, Progress("", []), LineSegments(lines[..i]), SplitAt(lines[i], IsSeparator));
      emitted := ConsumeSegments(r, classify, SplitAt(lines[i], IsSeparator), emitted);
    }
    assert lines[..|lines|] == lines;
  }

  lemma {:induction false} FeedConcat(classify: string -> Verdict, p: Progress, a: seq<string>, b: seq<string>)
    ensures Feed(classify, p, a + b) == Feed(classify, Feed(classify, p, a), b)
    decreases b
  {
    if b == [] {
      assert a + b == a;
    } else {
      assert (a + b)[..|a + b| - 1] == a + b[..|b| - 1];
      FeedConcat(classify, p, a, b[..|b| - 1]);
    }
  }

  lemma {:induction false} LineSegmentsConcat(a: seq<string>, b: seq<string>)
    ensures LineSegments(a + b) == LineSegments(a) + LineSegments(b)
  {
    if a == [] {
      assert a + b == b;
    } else {
      assert (a + b)[1..] == a[1..] + b;
      LineSegmentsConcat(a[1..], b);
    }
  }

  lemma LineSegmentsAppend(lines: seq<string>, i: nat)
    requires i < |lines|
    ensures LineSegments(lines[..i + 1]) == LineSegments(lines[..i]) + SplitAt(lines[i], IsSeparator)
  {
    assert lines[..i + 1] == lines[..i] + [lines[i]];
    LineSegmentsConcat(lines[..i], [lines[i]]);
  }

  // ---------------------------------------------------------------------------------------
  // Safety, for every stream

  /** Between segments the pending text is empty or an unfinished value within the cap, free of newlines. */
  ghost predicate PendingOk(classify: string -> Verdict, pending: string) {
    pending == "" ||
    (classify(pending) == Incomplete && ByteLength(pending) <= MAX_PENDING_BYTES && '\n' !in pending)
  }

  ghost predicate EmittedOk(classify: string -> Verdict, emitted: seq<string>) {
    forall i :: 0 <= i < |emitted| ==> classify(emitted[i]) == Valid && '\n' !in emitted[i]
  }

  /** A newline only at the very end, as in a segment of a line. */
  ghost predicate NewlineOnlyLast(s: string) {
    forall i :: 0 <= i < |s| - 1 ==> s[i] != '\n'
  }

  lemma {:induction false} ChunkIsNewlineFree(s: string)
    requires NewlineOnlyLast(s)
    ensures '\n' !in ChunkOf(s)
  {
    TrimmedIsNewlineFree(s);
    SanitizedIsPart(TrimLineEnd(s), '\n');
  }

  lemma {:induction false} TrimmedIsNewlineFree(s: string)
    requires NewlineOnlyLast(s)
    ensures '\n' !in TrimLineEnd(s)
  {
    if s != "" && (s[|s| - 1] == '\r' || s[|s| - 1] == '\n') { TrimmedIsNewlineFree(s[..|s| - 1]); }
  }

  lemma {:induction false} SanitizedIsPart(s: string, c: char)
    ensures c !in s ==> c !in Sanitize(s)
  {
    if s == "" {
    } else {
      assert s == s[..|s| - 1] + [s[|s| - 1]];
      SanitizedIsPart(s[..|s| - 1], c);
    }
  }

  lemma {:induction false} LinesEndInNewline(s: string)
    ensures forall i :: 0 <= i < |Lines(s)| ==> NewlineOnlyLast(Lines(s)[i])
  {
    if s == "" {
    } else {
      LinesEndInNewline(s[1..]);
    }
  }

  lemma {:induction false} SplitKeepsNewlines(s: string, at: char -> bool)
    requires NewlineOnlyLast(s)
    ensures forall i :: 0 <= i < |SplitAt(s, at)| ==> NewlineOnlyLast(SplitAt(s, at)[i])
  {
    if s == "" {
    } else {
      SplitKeepsNewlines(s[1..], at);
      var rest := SplitAt(s[1..], at);
      if |s| == 1 {
        assert rest == [""];
      }
    }
  }

  lemma {:induction false} SegmentsEndInNewline(lines: seq<string>)
    requires forall i :: 0 <= i < |lines| ==> NewlineOnlyLast(lines[i])
    ensures forall i :: 0 <= i < |LineSegments(lines)| ==> NewlineOnlyLast(LineSegments(lines)[i])
  {
    if lines == [] {
    } else {
      SegmentsEndInNewline(lines[1..]);
      SplitKeepsNewlines(lines[0], IsSeparator);
    }
  }

  lemma {:induction false} FeedIsSafe(classify: string -> Verdict, segments: seq<string>)
    requires forall i :: 0 <= i < |segments| ==> NewlineOnlyLast(segments[i])
    ensures var p := Feed(classify, Progress("", []), segments);
      PendingOk(classify, p.pending) && EmittedOk(classify, p.emitted)
  {
    if segments == [] {
    } else {
      FeedIsSafe(classify, segments[..|segments| - 1]);
      ChunkIsNewlineFree(segments[|segments| - 1]);
    }
  }

  /** Whatever arrives: bounded, unfinished leftovers, and only complete single-line messages come out. */
  lemma StreamIsSafe(classify: string -> Verdict, stream: string)
    ensures var p := Normalized(classify, stream);
      PendingOk(classify, p.pending) && EmittedOk(classify, p.emitted)
  {
    LinesEndInNewline(stream);
    SegmentsEndInNewline(Lines(stream));
    FeedIsSafe(classify, LineSegments(Lines(stream)));
  }

  // ---------------------------------------------------------------------------------------
  // Splitting: segments of lines are what lies between newlines and record separators

  predicate IsDelimiter(c: char) { c == '\n' || c == RS }

  function StripNewline(s: string): string {
    if s != "" && s[|s| - 1] == '\n' then s[..|s| - 1] else s
  }

  function StripNewlines(ss: seq<string>): seq<string> {
    if ss == [] then [] else [StripNewline(ss[0])] + StripNewlines(ss[1..])
  }

  lemma {:induction false} StripAppend(ss: seq<string>, t: seq<string>)
    ensures StripNewlines(ss + t) == StripNewlines(ss) + StripNewlines(t)
  {
    if ss == [] {
      assert ss + t == t;
    } else {
      assert (ss + t)[1..] == ss[1..] + t;
      StripAppend(ss[1..], t);
    }
  }

  lemma StripCons(x: string, rest: seq<string>)
    ensures StripNewlines([x] + rest) == [StripNewline(x)] + StripNewlines(rest)
  {
    assert ([x] + rest)[1..] == rest;
  }

  /** How the segments of the lines change when a character is put in front: on a line of its own, */
  lemma SegmentsConsAlone(c: char, t: string)
    requires c == '\n' || t == ""
    ensures LineSegments(Lines([c] + t)) == SplitAt([c], IsSeparator) + LineSegments(Lines(t))
  {
    var s := [c] + t;
    assert s[1..] == t;
    assert Lines(s) == [[c]] + Lines(t);
    assert Lines(s)[1..] == Lines(t);
  }

  /** or in front of the first line. */
  lemma SegmentsConsJoined(c: char, t: string)
    requires c != '\n' && t != ""
    ensures var rest := LineSegments(Lines(t));
      && rest != []
      && LineSegments(Lines([c] + t)) == if c == RS then [""] + rest else [[c] + rest[0]] + rest[1..]
  {
    var s, lines := [c] + t, Lines(t);
    assert s[1..] == t;
    var line := [c] + lines[0];
    assert Lines(s) == [line] + lines[1..];
    assert Lines(s)[1..] == lines[1..] && line[1..] == lines[0];
    var first := SplitAt(lines[0], IsSeparator);
    assert LineSegments(lines) == first + LineSegments(lines[1..]);
    assert LineSegments(Lines(s)) == SplitAt(line, IsSeparator) + LineSegments(lines[1..]);
  }

  ghost predicate SplitMatches(s: string) {
    StripNewlines(LineSegments(Lines(s))) + (if s == "" || s[|s| - 1] == '\n' then [""] else []) ==
      SplitAt(s, IsDelimiter)
  }

  /** The line-wise segments, newlines stripped, are the pieces between delimiters. */
  lemma {:induction false} SegmentsAreSplit(s: string)
    ensures SplitMatches(s)
  {
    if s == "" {
    } else {
      var c, t := s[0], s[1..];
      assert s == [c] + t;
      SegmentsAreSplit(t);
      if t == "" {
        assert s == [c];
        OneCharMatches(c);
      } else if c == '\n' {
        SegmentsConsAlone(c, t);
        SplitOne(c, IsSeparator);
        assert ["\n"][1..] == [] && StripNewline("\n") == "";
        StripAppend(["\n"], LineSegments(Lines(t)));
      } else {
        JoinedMatches(c, t);
      }
    }
  }

  lemma JoinedMatches(c: char, t: string)
    requires c != '\n' && t != "" && SplitMatches(t)
    ensures SplitMatches([c] + t)
  {
    var s, rest := [c] + t, LineSegments(Lines(t));
    SegmentsConsJoined(c, t);
    assert s[1..] == t && s[|s| - 1] == t[|t| - 1];
    var end := if t[|t| - 1] == '\n' then [""] else [];
    var pieces := SplitAt(t, IsDelimiter);
    assert StripNewlines(rest) + end == pieces;
    if c == RS {
      StripCons("", rest);
      assert [""] + StripNewlines(rest) + end == [""] + pieces;
    } else {
      PrefixFirst(c, rest, end);
    }
  }

  /** Putting a character in front of the first segment. */
  lemma PrefixFirst(c: char, segments: seq<string>, end: seq<string>)
    requires segments != [] && c != '\n'
    ensures var r := StripNewlines(segments) + end;
      r != [] && StripNewlines([[c] + segments[0]] + segments[1..]) + end == [[c] + r[0]] + r[1..]
  {
    StripCons(segments[0], segments[1..]);
    assert [segments[0]] + segments[1..] == segments;
    StripCons([c] + segments[0], segments[1..]);
    assert StripNewline([c] + segments[0]) == [c] + StripNewline(segments[0]);
  }

  lemma OneCharMatches(c: char)
    ensures SplitMatches([c])
  {
    SegmentsConsAlone(c, "");
    assert [c] + "" == [c];
    SplitOne(c, IsSeparator);
    SplitOne(c, IsDelimiter);
    var segments := LineSegments(Lines([c]));
    if c == RS {
      assert segments == ["", ""] && segments[1..] == [""] && segments[1..][1..] == [];
      assert StripNewlines(segments[1..]) == [""];
    } else {
      assert segments == [[c]] && segments[1..] == [];
      assert StripNewlines(segments) == [StripNewline([c])];
    }
  }

  // ---------------------------------------------------------------------------------------
  // From a stream to chunks

  function Chunks(segments: seq<string>): seq<string> {
    if segments == [] then []
    else
      Chunks(segments[..|segments| - 1]) + ChunksIn(segments[|segments| - 1])
  }

  function FeedChunks(classify: string -> Verdict, p: Progress, chunks: seq<string>): Progress {
    if chunks == [] then p else
      var q := FeedChunks(classify, p, chunks[..|chunks| - 1]);
      var (pending, outcome) := ConsumeChunk(classify, q.pending, chunks[|chunks| - 1]);
      Progress(pending, q.emitted + if outcome.Emit? then [outcome.line] else [])
  }

  /** One segment, as a chunk or as none. */
  function ChunksIn(segment: string): seq<string> {
    if Blank(segment) || ChunkOf(segment) == "" then [] else [ChunkOf(segment)]
  }

  lemma FeedOneByChunk(classify: string -> Verdict, p: Progress, chunks: seq<string>, segment: string)
    ensures FeedOne(classify, FeedChunks(classify, p, chunks), segment) ==
      FeedChunks(classify, p, chunks + ChunksIn(segment))
  {
    var q := FeedChunks(classify, p, chunks);
    if ChunksIn(segment) == [] {
      assert q.emitted + [] == q.emitted && chunks + [] == chunks;
    } else {
      assert (chunks + [ChunkOf(segment)])[..|chunks|] == chunks;
    }
  }

  lemma {:induction false} FeedByChunks(classify: string -> Verdict, p: Progress, segments: seq<string>)
    ensures Feed(classify, p, segments) == FeedChunks(classify, p, Chunks(segments))
  {
    if segments == [] {
    } else {
      var init, last := segments[..|segments| - 1], segments[|segments| - 1];
      FeedByChunks(classify, p, init);
      FeedOneByChunk(classify, p, Chunks(init), last);
    }
  }

  lemma {:induction false} ChunksConcat(a: seq<string>, b: seq<string>)
    ensures Chunks(a + b) == Chunks(a) + Chunks(b)
    decreases b
  {
    if b == [] {
      assert a + b == a;
    } else {
      assert (a + b)[..|a + b| - 1] == a + b[..|b| - 1];
      ChunksConcat(a, b[..|b| - 1]);
    }
  }

  lemma ChunksOne(s: string)
    ensures Chunks([s]) == ChunksIn(s)
  {
    assert [s][..0] == [];
  }

  lemma StrippedIsSameChunk(s: string)
    ensures ChunksIn(StripNewline(s)) == ChunksIn(s)
  {
    if s != "" && s[|s| - 1] == '\n' {
      assert s == s[..|s| - 1] + ['\n'];
    }
  }

  lemma {:induction false} ChunksStripped(segments: seq<string>)
    ensures Chunks(StripNewlines(segments)) == Chunks(segments)
  {
    if segments == [] {
    } else {
      var s, rest := segments[0], segments[1..];
      ChunksStripped(rest);
      StrippedIsSameChunk(s);
      assert segments == [s] + rest;
      ChunksConcat([s], rest);
      ChunksConcat([StripNewline(s)], StripNewlines(rest));
      ChunksOne(s);
      ChunksOne(StripNewline(s));
    }
  }

  function ChunksOf(stream: string): seq<string> {
    Chunks(SplitAt(stream, IsDelimiter))
  }

  lemma NormalizedByChunks(classify: string -> Verdict, stream: string)
    ensures Normalized(classify, stream) == FeedChunks(classify, Progress("", []), ChunksOf(stream))
  {
    var segments := LineSegments(Lines(stream));
    SegmentsAreSplit(stream);
    ChunksStripped(segments);
    ChunksConcat(StripNewlines(segments), [""]);
    ChunksOne("");
    assert StripNewlines(segments) + [] == StripNewlines(segments);
    assert Chunks(segments) + [] == Chunks(segments);
    FeedByChunks(classify, Progress("", []), segments);
  }

  lemma ChunksOfConcat(a: string, d: char, b: string)
    requires IsDelimiter(d)
    ensures ChunksOf(a + [d] + b) == ChunksOf(a) + ChunksOf(b)
  {
    SplitConcat(a, d, b, IsDelimiter);
    ChunksConcat(SplitAt(a, IsDelimiter), SplitAt(b, IsDelimiter));
  }

  // ---------------------------------------------------------------------------------------
  // Delivery

  /** Line ends and record separators. */
  ghost predicate Noise(s: string) {
    forall i :: 0 <= i < |s| ==> s[i] == '\r' || s[i] == '\n' || s[i] == RS
  }

  ghost predicate Plain(s: string) {
    !Blank(s) && forall i :: 0 <= i < |s| ==> s[i] != '\r' && s[i] != '\n' && s[i] != RS && s[i] != NUL
  }

  lemma {:induction false} ReturnsAreTrimmed(crs: string)
    requires forall i :: 0 <= i < |crs| ==> crs[i] == '\r'
    ensures TrimLineEnd(crs) == ""
  {
    if crs == "" {
    } else {
      ReturnsAreTrimmed(crs[..|crs| - 1]);
    }
  }

  lemma ReturnsHaveNoChunks(crs: string)
    requires forall i :: 0 <= i < |crs| ==> crs[i] == '\r'
    ensures ChunksOf(crs) == []
  {
    SplitNone(crs, IsDelimiter);
    ReturnsAreTrimmed(crs);
    ChunksOne(crs);
  }

  lemma {:induction false} NoiseHasNoChunks(n: string)
    requires Noise(n)
    ensures ChunksOf(n) == []
    decreases n
  {
    var k := FirstDelimiter(n, 0);
    ReturnsHaveNoChunks(n[..k]);
    if k == |n| {
      assert n[..k] == n;
    } else {
      assert n == n[..k] + [n[k]] + n[k + 1..];
      ChunksOfConcat(n[..k], n[k], n[k + 1..]);
      NoiseHasNoChunks(n[k + 1..]);
    }
  }

  lemma {:induction false} FirstDelimiter(n: string, from: nat) returns (k: nat)
    requires from <= |n| && forall i :: 0 <= i < from ==> !IsDelimiter(n[i])
    ensures k <= |n| && (forall i :: 0 <= i < k ==> !IsDelimiter(n[i])) && (k < |n| ==> IsDelimiter(n[k]))
    decreases |n| - from
  {
    if from == |n| || IsDelimiter(n[from]) { k := from; } else { k := FirstDelimiter(n, from + 1); }
  }

  lemma {:induction false} TrimReturns(text: string, crs: string)
    requires Plain(text) && forall i :: 0 <= i < |crs| ==> crs[i] == '\r'
    ensures TrimLineEnd(text + crs) == text
    decreases crs
  {
    if crs == "" {
      assert text + crs == text;
    } else {
      assert (text + crs)[..|text + crs| - 1] == text + crs[..|crs| - 1];
      TrimReturns(text, crs[..|crs| - 1]);
    }
  }

  lemma {:induction false} SanitizePlain(text: string)
    requires forall i :: 0 <= i < |text| ==> text[i] != RS && text[i] != NUL
    ensures Sanitize(text) == text
  {
    if text == "" {
    } else {
      SanitizePlain(text[..|text| - 1]);
    }
  }

  /** Plain text followed by carriage returns only. */
  lemma PlainChunk(text: string, crs: string)
    requires Plain(text) && forall i :: 0 <= i < |crs| ==> crs[i] == '\r'
    ensures ChunksOf(text + crs) == [text]
  {
    var s := text + crs;
    assert forall i :: 0 <= i < |s| ==> !IsDelimiter(s[i]);
    SplitNone(s, IsDelimiter);
    TrimReturns(text, crs);
    SanitizePlain(text);
    ChunksOne(s);
    var i :| 0 <= i < |text| && !IsWhitespace(text[i]);
    assert s[i] == text[i];
  }

  lemma CutAt(text: string, n: string, k: nat)
    requires k < |n|
    ensures text + n == (text + n[..k]) + [n[k]] + n[k + 1..]
  {
    assert n == n[..k] + [n[k]] + n[k + 1..];
  }

  /** A piece of plain text followed by line ends and separators is one chunk. */
  lemma PieceIsOneChunk(text: string, n: string)
    requires Plain(text) && Noise(n)
    ensures ChunksOf(text + n) == [text]
  {
    var k := FirstDelimiter(n, 0);
    PlainChunk(text, n[..k]);
    if k < |n| {
      CutAt(text, n, k);
      ChunksOfConcat(text + n[..k], n[k], n[k + 1..]);
      NoiseHasNoChunks(n[k + 1..]);
    } else {
      assert n[..k] == n;
    }
  }

  /** A piece of text and what follows it up to the next piece. */
  datatype Frame = Frame(text: string, gap: string)

  ghost predicate EndsPiece(gap: string) {
    Noise(gap) && gap != "" && IsDelimiter(gap[|gap| - 1])
  }

  ghost predicate FramesOk(frames: seq<Frame>) {
    && (forall i :: 0 <= i < |frames| ==> Plain(frames[i].text) && Noise(frames[i].gap))
    && (forall i :: 0 <= i < |frames| - 1 ==> EndsPiece(frames[i].gap))
  }

  function Stream(frames: seq<Frame>): string {
    if frames == [] then "" else frames[0].text + frames[0].gap + Stream(frames[1..])
  }

  function Texts(frames: seq<Frame>): seq<string> {
    if frames == [] then [] else [frames[0].text] + Texts(frames[1..])
  }

  lemma {:induction false} StreamChunks(frames: seq<Frame>)
    requires FramesOk(frames)
    ensures ChunksOf(Stream(frames)) == Texts(frames)
  {
    if frames == [] {
      NoiseHasNoChunks("");
    } else {
      var f, rest := frames[0], frames[1..];
      StreamChunks(rest);
      if rest == [] {
        assert f.text + f.gap + "" == f.text + f.gap;
        PieceIsOneChunk(f.text, f.gap);
      } else {
        var n := |f.gap| - 1;
        assert f.text + f.gap + Stream(rest) == (f.text + f.gap[..n]) + [f.gap[n]] + Stream(rest);
        ChunksOfConcat(f.text + f.gap[..n], f.gap[n], Stream(rest));
        PieceIsOneChunk(f.text, f.gap[..n]);
      }
    }
  }

  function Join(pieces: seq<string>): string {
    if pieces == [] then "" else Join(pieces[..|pieces| - 1]) + pieces[|pieces| - 1]
  }

  function Flatten(messages: seq<seq<string>>): seq<string> {
    if messages == [] then [] else Flatten(messages[..|messages| - 1]) + messages[|messages| - 1]
  }

  function JoinAll(messages: seq<seq<string>>): seq<string> {
    if messages == [] then [] else JoinAll(messages[..|messages| - 1]) + [Join(messages[|messages| - 1])]
  }

  /** A complete message whose proper beginnings, piece by piece, are unfinished and within the cap. */
  ghost predicate Deliverable(classify: string -> Verdict, pieces: seq<string>) {
    && pieces != [] && classify(Join(pieces)) == Valid
    && forall k :: 0 < k < |pieces| ==>
         classify(Join(pieces[..k])) == Incomplete && ByteLength(Join(pieces[..k])) <= MAX_PENDING_BYTES
  }

  lemma {:induction false} FeedPieces(classify: string -> Verdict, p: Progress, pieces: seq<string>, k: nat)
    requires Deliverable(classify, pieces) && p.pending == "" && 0 < k <= |pieces|
    ensures FeedChunks(classify, p, pieces[..k]) ==
      if k < |pieces| then Progress(Join(pieces[..k]), p.emitted) else Progress("", p.emitted + [Join(pieces)])
  {
    assert pieces[..k][..k - 1] == pieces[..k - 1];
    assert pieces[..|pieces|] == pieces;
    if k > 1 {
      FeedPieces(classify, p, pieces, k - 1);
    } else {
      assert pieces[..0] == [] && "" + pieces[0] == pieces[0];
    }
    assert p.emitted + [] == p.emitted;
  }

  lemma {:induction false} FeedChunksConcat(classify: string -> Verdict, p: Progress, a: seq<string>, b: seq<string>)
    ensures FeedChunks(classify, p, a + b) == FeedChunks(classify, FeedChunks(classify, p, a), b)
    decreases b
  {
    if b == [] {
      assert a + b == a;
    } else {
      assert (a + b)[..|a + b| - 1] == a + b[..|b| - 1];
      FeedChunksConcat(classify, p, a, b[..|b| - 1]);
    }
  }

  lemma {:induction false} FeedMessages(classify: string -> Verdict, messages: seq<seq<string>>)
    requires forall i :: 0 <= i < |messages| ==> Deliverable(classify, messages[i])
    ensures FeedChunks(classify, Progress("", []), Flatten(messages)) == Progress("", JoinAll(messages))
  {
    if messages == [] {
    } else {
      var init, last := messages[..|messages| - 1], messages[|messages| - 1];
      FeedMessages(classify, init);
      FeedChunksConcat(classify, Progress("", []), Flatten(init), last);
      FeedPieces(classify, Progress("", JoinAll(init)), last, |last|);
      assert last[..|last|] == last;
    }
  }

  /**
   * Reassembly. Messages cut into plain, not all blank pieces, with any line ends and record
   * separators before, between and after the pieces, come out exactly, in order, and nothing
   * is left over.
   */
  lemma MessagesAreReassembled(classify: string -> Verdict, lead: string, frames: seq<Frame>,
                               messages: seq<seq<string>>)
    requires FramesOk(frames) && (lead == "" || EndsPiece(lead))
    requires Texts(frames) == Flatten(messages)
    requires forall i :: 0 <= i < |messages| ==> Deliverable(classify, messages[i])
    ensures Normalized(classify, lead + Stream(frames)) == Progress("", JoinAll(messages))
  {
    StreamChunks(frames);
    LeadIsSkipped(lead, Stream(frames));
    NormalizedByChunks(classify, lead + Stream(frames));
    FeedMessages(classify, messages);
  }

  lemma LeadIsSkipped(lead: string, s: string)
    requires lead == "" || EndsPiece(lead)
    ensures ChunksOf(lead + s) == ChunksOf(s)
  {
    if lead == "" {
      assert lead + s == s;
    } else {
      var n := |lead| - 1;
      assert lead + s == lead[..n] + [lead[n]] + s;
      ChunksOfConcat(lead[..n], lead[n], s);
      NoiseHasNoChunks(lead[..n]);
    }
  }

  /** JSON text sequences: every text between a record separator and a line feed. */
  function TextSequence(messages: seq<string>): string {
    if messages == [] then "" else [RS] + messages[0] + "\n" + TextSequence(messages[1..])
  }

  function SequenceFrames(messages: seq<string>): (frames: seq<Frame>)
    ensures |frames| == |messages|
  {
    if messages == [] then []
    else [Frame(messages[0], GapAfter(|messages| == 1))] + SequenceFrames(messages[1..])
  }

  function GapAfter(last: bool): (gap: string)
    ensures Noise(gap) && (!last ==> EndsPiece(gap))
  {
    if last then "\n" else ['\n', RS]
  }

  lemma {:induction false} SequenceFramesOk(messages: seq<string>)
    requires forall i :: 0 <= i < |messages| ==> Plain(messages[i])
    ensures FramesOk(SequenceFrames(messages)) && Texts(SequenceFrames(messages)) == messages
  {
    if messages == [] {
    } else {
      SequenceFramesOk(messages[1..]);
      FramesCons(Frame(messages[0], GapAfter(|messages| == 1)), SequenceFrames(messages[1..]));
      assert messages == [messages[0]] + messages[1..];
    }
  }

  lemma FramesCons(f: Frame, rest: seq<Frame>)
    requires Plain(f.text) && Noise(f.gap) && FramesOk(rest) && (rest != [] ==> EndsPiece(f.gap))
    ensures FramesOk([f] + rest) && Texts([f] + rest) == [f.text] + Texts(rest)
  {
    assert ([f] + rest)[1..] == rest;
  }

  lemma {:induction false} SequenceAsFrames(messages: seq<string>)
    requires messages != []
    ensures TextSequence(messages) == [RS] + Stream(SequenceFrames(messages))
  {
    var frames, rest := SequenceFrames(messages), messages[1..];
    assert frames[1..] == SequenceFrames(rest);
    if rest == [] {
      OneMessage(messages[0]);
    } else {
      SequenceAsFrames(rest);
      NextMessage(messages[0], Stream(SequenceFrames(rest)));
    }
  }

  lemma OneMessage(text: string)
    ensures [RS] + text + "\n" + "" == [RS] + (text + "\n" + "")
  {
  }

  lemma NextMessage(text: string, rest: string)
    ensures [RS] + text + "\n" + ([RS] + rest) == [RS] + (text + ['\n', RS] + rest)
  {
  }

  lemma {:induction false} OnePieceEach(messages: seq<string>) returns (cut: seq<seq<string>>)
    ensures |cut| == |messages| && forall i :: 0 <= i < |cut| ==> cut[i] == [messages[i]]
    ensures Flatten(cut) == messages && JoinAll(cut) == messages
  {
    if messages == [] {
      cut := [];
    } else {
      var init, last := messages[..|messages| - 1], messages[|messages| - 1];
      var rest := OnePieceEach(init);
      cut := rest + [[last]];
      assert cut[..|cut| - 1] == rest && messages == init + [last];
      JoinOne(last);
    }
  }

  lemma JoinOne(s: string)
    ensures Join([s]) == s
  {
    assert [s][..0] == [] && "" + s == s;
  }

  lemma OnePieceIsDeliverable(classify: string -> Verdict, message: string)
    requires classify(message) == Valid
    ensures Deliverable(classify, [message])
  {
    JoinOne(message);
  }

  /** Complete messages framed as in section 2 of RFC 7464 come out unchanged, whatever their size. */
  lemma TextSequenceRoundTrip(classify: string -> Verdict, messages: seq<string>)
    requires forall i :: 0 <= i < |messages| ==> Plain(messages[i]) && classify(messages[i]) == Valid
    ensures Normalized(classify, TextSequence(messages)) == Progress("", messages)
  {
    if messages == [] {
      NormalizedByChunks(classify, "");
      NoiseHasNoChunks("");
    } else {
      var cut := OnePieceEach(messages);
      forall i | 0 <= i < |cut| ensures Deliverable(classify, cut[i]) {
        OnePieceIsDeliverable(classify, messages[i]);
      }
      SequenceAsFrames(messages);
      SequenceFramesOk(messages);
      assert EndsPiece([RS]);
      MessagesAreReassembled(classify, [RS], SequenceFrames(messages), cut);
    }
  }
}
