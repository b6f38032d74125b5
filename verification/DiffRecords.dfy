/**
 * The parsers of `git diff --name-status -z` and `git diff --numstat -z`, and their join,
 * crates/git-diff/src/diff.rs.
 */
module DiffRecords {
  import opened Characters
  import opened Collections
  import opened Decimals
  import opened Splitting
  import opened Words

  predicate IsNul(c: char) { c == NUL }

  predicate IsTab(c: char) { c == '\t' }

  datatype FileDiffSummary = FileDiffSummary(
    before: Option<string>,
    after: Option<string>,
    addedLines: Option<nat>,
    deletedLines: Option<nat>)
  {
    /** `after` if there is one, else `before`; every parsed summary has one of them. */
    function Path(): Option<string> {
      if after.Some? then after else before
    }
  }

  function Summary(before: Option<string>, after: Option<string>): FileDiffSummary {
    FileDiffSummary(before, after, None, None)
  }

  datatype LineStats = LineStats(added: Option<nat>, deleted: Option<nat>)

  // ---------------------------------------------------------------------------------------
  // The parsers, over the NUL-separated parts

  function StatusChar(status: string): char {
    if status == "" then ' ' else status[0]
  }

  /** What one round of the loop takes from the parts: the record, if any, and how many parts. */
  function TakeRecord(parts: seq<string>): (r: (seq<FileDiffSummary>, nat))
    requires parts != []
    ensures 0 < r.1 <= |parts|
  {
    var c := StatusChar(parts[0]);
    if parts[0] == "" then ([], 1)
    else if c == 'R' || c == 'C' then
      if |parts| < 3 then ([], |parts|) else ([Summary(Some(parts[1]), Some(parts[2]))], 3)
    else if |parts| < 2 then ([], 1)
    else if c == 'A' then ([Summary(None, Some(parts[1]))], 2)
    else if c == 'D' then ([Summary(Some(parts[1]), None)], 2)
    else if c == 'M' || c == 'T' then ([Summary(Some(parts[1]), Some(parts[1]))], 2)
    else ([], 2)
  }

  function NameStatus(parts: seq<string>): seq<FileDiffSummary>
    decreases |parts|
  {
    if parts == [] then [] else
      var (found, n) := TakeRecord(parts);
      found + NameStatus(parts[n..])
  }

  /** One round of the loop; `next` walks along the parts. */
  method ReadRecord(parts: seq<string>, i: nat) returns (found: seq<FileDiffSummary>, next: nat)
    requires i < |parts|
    ensures i < next <= |parts|
    ensures (found, next - i) == TakeRecord(parts[i..])
  {
    var status := parts[i];
    found, next := [], i + 1;
    if status == "" {
      return;
    }
    var statusChar := StatusChar(status);
    if statusChar == 'A' {
      if next < |parts| {
        found, next := [Summary(None, Some(parts[next]))], next + 1;
      }
    } else if statusChar == 'D' {
      if next < |parts| {
        found, next := [Summary(Some(parts[next]), None)], next + 1;
      }
    } else if statusChar == 'M' || statusChar == 'T' {
      if next < |parts| {
        found, next := [Summary(Some(parts[next]), Some(parts[next]))], next + 1;
      }
    } else if statusChar == 'R' || statusChar == 'C' {
      if next + 1 < |parts| {
        found, next := [Summary(Some(parts[next]), Some(parts[next + 1]))], next + 2;
      } else {
        next := |parts|;  // both calls to `next` are made before their results are looked at
      }
    } else if next < |parts| {
      next := next + 1;
    }
  }

  method ParseNameStatus(output: string) returns (results: seq<FileDiffSummary>)
    ensures results == NameStatus(SplitAt(output, IsNul))
  {
    var parts := SplitAt(output, IsNul);
    results := [];
    var i := 0;
    while i < |parts|
      invariant 0 <= i <= |parts|
      invariant NameStatus(parts) == results + NameStatus(parts[i..])
      decreases |parts| - i
    {
      var found, next := ReadRecord(parts, i);
      assert parts[i..][next - i..] == parts[next..];
      results := results + found;
      i := next;
    }
  }

  /** `str::parse::<u32>`: digits after an optional plus sign. */
  function ParseU32(s: string): Option<nat> {
    var digits := if s != "" && s[0] == '+' then s[1..] else s;
    if digits != "" && (forall i | 0 <= i < |digits| :: IsDigit(digits[i])) && Value(digits) < U32_LIMIT
    then Some(Value(digits)) else None
  }

  function ParseCount(s: string): Option<nat> {
    if s == "-" then None else ParseU32(s)
  }

  /** One numstat record: its counts, and the path if it is not a rename's empty field. */
  function StatsOf(columns: seq<string>): LineStats
    requires |columns| >= 2
  {
    LineStats(ParseCount(columns[0]), ParseCount(columns[1]))
  }

  function PathField(columns: seq<string>): string {
    if |columns| > 2 then columns[2] else ""
  }

  function Insert(stats: map<string, LineStats>, path: string, s: LineStats): map<string, LineStats> {
    if path == "" then stats else stats[path := s]
  }

  function Numstat(parts: seq<string>, stats: map<string, LineStats>): map<string, LineStats>
    decreases |parts|
  {
    if parts == [] then stats
    else
      var columns := SplitAt(parts[0], IsTab);
      if parts[0] == "" || |columns| < 2 then Numstat(parts[1..], stats)
      else if PathField(columns) != "" then Numstat(parts[1..], Insert(stats, PathField(columns), StatsOf(columns)))
      else if |parts| < 3 then stats
      else Numstat(parts[3..], Insert(stats, parts[2], StatsOf(columns)))
  }

  method ParseNumstat(output: string) returns (stats: map<string, LineStats>)
    ensures stats == Numstat(SplitAt(output, IsNul), map[])
  {
    var parts := SplitAt(output, IsNul);
    stats := map[];
    var i := 0;
    while i < |parts|
      invariant 0 <= i <= |parts|
      invariant Numstat(parts, map[]) == Numstat(parts[i..], stats)
      decreases |parts| - i
    {
      var record := parts[i];
      assert parts[i..][1..] == parts[i + 1..];
      assert i + 3 <= |parts| ==> parts[i..][3..] == parts[i + 3..];
      i := i + 1;
      if record == "" {
        continue;
      }
      var columns := SplitAt(record, IsTab);
      var added := ParseCount(columns[0]);
      if |columns| < 2 {
        continue;
      }
      var deleted := ParseCount(columns[1]);
      var pathField := if |columns| > 2 then columns[2] else "";
      if pathField == "" {
        if i + 1 < |parts| {
          stats := Insert(stats, parts[i + 1], LineStats(added, deleted));
          i := i + 2;
        } else {
          i := |parts|;
        }
      } else {
        stats := Insert(stats, pathField, LineStats(added, deleted));
      }
    }
  }

  function WithStats(f: FileDiffSummary, stats: map<string, LineStats>): FileDiffSummary {
    match f.Path()
    case Some(p) => if p in stats then f.(addedLines := stats[p].added, deletedLines := stats[p].deleted) else f
    case None => f
  }

  function Joined(files: seq<FileDiffSummary>, stats: map<string, LineStats>): seq<FileDiffSummary> {
    seq(|files|, i requires 0 <= i < |files| => WithStats(files[i], stats))
  }

  method ApplyNumstatOutput(files: array<FileDiffSummary>, output: string)
    modifies files
    ensures files[..] == Joined(old(files[..]), Numstat(SplitAt(output, IsNul), map[]))
  {
    var stats := ParseNumstat(output);
    for i := 0 to files.Length
      invariant forall k :: 0 <= k < i ==> files[k] == WithStats(old(files[k]), stats)
      invariant forall k :: i <= k < files.Length ==> files[k] == old(files[k])
    {
      var path := files[i].Path();
      if path.Some? && path.value in stats {
        var s := stats[path.value];
        files[i] := files[i].(addedLines := s.added, deletedLines := s.deleted);
      }
    }
  }

  // ---------------------------------------------------------------------------------------
  // What git prints

  datatype Change =
    | Added(path: string)
    | Deleted(path: string)
    | Modified(path: string)
    | TypeChanged(path: string)
    | Renamed(score: string, oldPath: string, path: string)
    | Copied(score: string, oldPath: string, path: string)

  /** A change with its line counts; a binary file has none. */
  datatype Entry = Entry(change: Change, added: Option<nat>, deleted: Option<nat>)

  function StatusParts(c: Change): seq<string> {
    match c
    case Added(p) => ["A", p]
    case Deleted(p) => ["D", p]
    case Modified(p) => ["M", p]
    case TypeChanged(p) => ["T", p]
    case Renamed(score, o, p) => ["R" + score, o, p]
    case Copied(score, o, p) => ["C" + score, o, p]
  }

  function PrintCount(n: Option<nat>): string {
    match n
    case None => "-"
    case Some(n) => Decimal(n)
  }

  function NumstatParts(e: Entry): seq<string> {
    var counts := PrintCount(e.added) + "\t" + PrintCount(e.deleted) + "\t";
    if TwoPaths(e.change) then [counts, e.change.oldPath, e.change.path]
    else [counts + e.change.path]
  }

  /** Parts, each ended by a NUL. */
  function Terminated(parts: seq<string>): string {
    if parts == [] then "" else parts[0] + [NUL] + Terminated(parts[1..])
  }

  function PrintNameStatus(es: seq<Entry>): string {
    if es == [] then "" else Terminated(StatusParts(es[0].change)) + PrintNameStatus(es[1..])
  }

  function PrintNumstat(es: seq<Entry>): string {
    if es == [] then "" else Terminated(NumstatParts(es[0])) + PrintNumstat(es[1..])
  }

  function SummaryOf(c: Change): FileDiffSummary {
    match c
    case Added(p) => Summary(None, Some(p))
    case Deleted(p) => Summary(Some(p), None)
    case Modified(p) => Summary(Some(p), Some(p))
    case TypeChanged(p) => Summary(Some(p), Some(p))
    case Renamed(_, o, p) => Summary(Some(o), Some(p))
    case Copied(_, o, p) => Summary(Some(o), Some(p))
  }

  function Counted(e: Entry): FileDiffSummary {
    SummaryOf(e.change).(addedLines := e.added, deletedLines := e.deleted)
  }

  ghost predicate NulFree(s: string) { forall i :: 0 <= i < |s| ==> !IsNul(s[i]) }

  ghost predicate TabFree(s: string) { forall i :: 0 <= i < |s| ==> !IsTab(s[i]) }

  ghost predicate CountFits(n: Option<nat>) { n.Some? ==> n.value < U32_LIMIT }

  predicate TwoPaths(c: Change) { c.Renamed? || c.Copied? }

  /** Counts fit, and paths can be told apart in the output; tabs may occur in them, but not first. */
  ghost predicate Printable(e: Entry) {
    && NulFreeChange(e.change)
    && e.change.path != "" && (!TwoPaths(e.change) ==> !IsTab(e.change.path[0]))
    && CountFits(e.added) && CountFits(e.deleted)
  }

  ghost predicate NulFreeChange(c: Change) {
    NulFree(c.path) && (TwoPaths(c) ==> NulFree(c.score) && NulFree(c.oldPath))
  }

  ghost predicate AllPrintable(es: seq<Entry>) {
    forall i :: 0 <= i < |es| ==> Printable(es[i])
  }

  // ---------------------------------------------------------------------------------------

  lemma FirstTerminated(parts: seq<string>, rest: string)
    requires parts != []
    ensures Terminated(parts) + rest == parts[0] + [NUL] + (Terminated(parts[1..]) + rest)
  {
  }

  lemma FirstPart(parts: seq<string>, rest: seq<string>)
    requires parts != []
    ensures [parts[0]] + (parts[1..] + rest) == parts + rest
  {
    assert parts == [parts[0]] + parts[1..];
  }

  lemma {:induction false} SplitTerminated(parts: seq<string>, rest: string)
    requires forall i :: 0 <= i < |parts| ==> NulFree(parts[i])
    ensures SplitAt(Terminated(parts) + rest, IsNul) == parts + SplitAt(rest, IsNul)
  {
    if parts == [] {
      assert "" + rest == rest;
    } else {
      SplitTerminated(parts[1..], rest);
      FirstTerminated(parts, rest);
      SplitConcat(parts[0], NUL, Terminated(parts[1..]) + rest, IsNul);
      SplitNone(parts[0], IsNul);
      FirstPart(parts, SplitAt(rest, IsNul));
    }
  }

  lemma NameStatusOne(c: Change, rest: seq<string>)
    ensures NameStatus(StatusParts(c) + rest) == [SummaryOf(c)] + NameStatus(rest)
  {
    var parts := StatusParts(c) + rest;
    if TwoPaths(c) {
      assert parts[3..] == rest;
    } else {
      assert parts[2..] == rest;
    }
  }

  function Summaries(es: seq<Entry>): seq<FileDiffSummary> {
    Map((e: Entry) => SummaryOf(e.change), es)
  }

  lemma SummariesCons(e: Entry, rest: seq<Entry>)
    ensures Summaries([e] + rest) == [SummaryOf(e.change)] + Summaries(rest)
  {
  }

  lemma StatusPartsNulFree(e: Entry)
    requires NulFreeChange(e.change)
    ensures forall i :: 0 <= i < |StatusParts(e.change)| ==> NulFree(StatusParts(e.change)[i])
  {
  }

  /** Parsing the printed name-status gives the records back, in order, whatever else their paths contain. */
  lemma {:induction false} NameStatusRoundTrip(es: seq<Entry>)
    requires forall i :: 0 <= i < |es| ==> NulFreeChange(es[i].change)
    ensures NameStatus(SplitAt(PrintNameStatus(es), IsNul)) == Summaries(es)
  {
    if es == [] {
      assert SplitAt("", IsNul) == [""] && [""][1..] == [];
    } else {
      var e, rest := es[0], es[1..];
      assert es == [e] + rest;
      NameStatusRoundTrip(rest);
      StatusPartsNulFree(e);
      SplitTerminated(StatusParts(e.change), PrintNameStatus(rest));
      NameStatusOne(e.change, SplitAt(PrintNameStatus(rest), IsNul));
      SummariesCons(e, rest);
    }
  }

  lemma PrintCountParses(n: Option<nat>)
    requires CountFits(n)
    ensures ParseCount(PrintCount(n)) == n
    ensures TabFree(PrintCount(n)) && NulFree(PrintCount(n)) && PrintCount(n) != ""
  {
    if n.Some? {
      var s := Decimal(n.value);
      DecimalValue(n.value);
      assert IsDigit(s[0]);
    }
  }

  function BeforeTab(s: string): string {
    if s == "" || IsTab(s[0]) then "" else [s[0]] + BeforeTab(s[1..])
  }

  /** The path under which the parser files a record's counts. */
  function Key(e: Entry): string {
    if TwoPaths(e.change) then e.change.path else BeforeTab(e.change.path)
  }

  lemma {:induction false} BeforeTabIsFirstColumn(s: string)
    ensures SplitAt(s, IsTab)[0] == BeforeTab(s)
    ensures TabFree(BeforeTab(s)) && (BeforeTab(s) == s <==> TabFree(s))
  {
    if s == "" {
    } else {
      BeforeTabIsFirstColumn(s[1..]);
      assert s == [s[0]] + s[1..];
      if !IsTab(s[0]) {
        assert TabFree(s) ==> TabFree(s[1..]);
        assert BeforeTab(s)[1..] == BeforeTab(s[1..]);
      }
    }
  }

  lemma FirstCell(cell: string, rest: string)
    requires TabFree(cell)
    ensures SplitAt(cell + "\t" + rest, IsTab) == [cell] + SplitAt(rest, IsTab)
  {
    SplitConcat(cell, '\t', rest, IsTab);
    SplitNone(cell, IsTab);
  }

  lemma ThreeCells(a: string, d: string, field: string)
    requires TabFree(a) && TabFree(d)
    ensures SplitAt(a + "\t" + d + "\t" + field, IsTab) == [a, d] + SplitAt(field, IsTab)
  {
    var rest := d + "\t" + field;
    assert a + "\t" + d + "\t" + field == a + "\t" + rest;
    FirstCell(a, rest);
    FirstCell(d, field);
  }

  /** The columns of a printed record. */
  lemma RecordColumns(added: Option<nat>, deleted: Option<nat>, field: string)
    requires CountFits(added) && CountFits(deleted)
    ensures SplitAt(PrintCount(added) + "\t" + PrintCount(deleted) + "\t" + field, IsTab) ==
            [PrintCount(added), PrintCount(deleted)] + SplitAt(field, IsTab)
  {
    PrintCountParses(added);
    PrintCountParses(deleted);
    ThreeCells(PrintCount(added), PrintCount(deleted), field);
  }

  lemma NumstatOne(e: Entry, rest: seq<string>, stats: map<string, LineStats>)
    requires Printable(e)
    ensures Numstat(NumstatParts(e) + rest, stats) == Numstat(rest, stats[Key(e) := LineStats(e.added, e.deleted)])
  {
    var parts := NumstatParts(e) + rest;
    PrintCountParses(e.added);
    PrintCountParses(e.deleted);
    var counts := PrintCount(e.added) + "\t" + PrintCount(e.deleted) + "\t";
    if TwoPaths(e.change) {
      RecordColumns(e.added, e.deleted, "");
      assert counts + "" == counts;
      assert SplitAt("", IsTab) == [""];
      assert parts[3..] == rest;
    } else {
      RecordColumns(e.added, e.deleted, e.change.path);
      BeforeTabIsFirstColumn(e.change.path);
      assert parts[1..] == rest;
    }
  }

  lemma CountsAreNulFree(n: Option<nat>)
    ensures NulFree(PrintCount(n))
  {
  }

  lemma NumstatPartsNulFree(e: Entry)
    requires NulFreeChange(e.change)
    ensures forall i :: 0 <= i < |NumstatParts(e)| ==> NulFree(NumstatParts(e)[i])
  {
    CountsAreNulFree(e.added);
    CountsAreNulFree(e.deleted);
  }

  function StatsOfAll(es: seq<Entry>, stats: map<string, LineStats>): map<string, LineStats>
    decreases |es|
  {
    if es == [] then stats
    else StatsOfAll(es[1..], stats[Key(es[0]) := LineStats(es[0].added, es[0].deleted)])
  }

  lemma {:induction false} NumstatRoundTrip(es: seq<Entry>, stats: map<string, LineStats>)
    requires AllPrintable(es)
    ensures Numstat(SplitAt(PrintNumstat(es), IsNul), stats) == StatsOfAll(es, stats)
    decreases |es|
  {
    if es == [] {
      assert [""][1..] == [];
      assert SplitAt("", IsTab) == [""];
    } else {
      var e, rest := es[0], es[1..];
      assert Printable(e);
      NumstatRoundTrip(rest, stats[Key(e) := LineStats(e.added, e.deleted)]);
      NumstatPartsNulFree(e);
      SplitTerminated(NumstatParts(e), PrintNumstat(rest));
      NumstatOne(e, SplitAt(PrintNumstat(rest), IsNul), stats);
    }
  }

  // ---------------------------------------------------------------------------------------
  // The join

  /** No two records have the same primary path. */
  ghost predicate DistinctPaths(es: seq<Entry>) {
    forall i, j :: 0 <= i < j < |es| ==> es[i].change.path != es[j].change.path
  }

  ghost predicate Unkeyed(es: seq<Entry>, path: string) {
    forall k :: 0 <= k < |es| ==> Key(es[k]) != path
  }

  ghost predicate LastFor(es: seq<Entry>, k: nat, path: string)
    requires k < |es|
  {
    Key(es[k]) == path && forall j :: k < j < |es| ==> Key(es[j]) != path
  }

  /** The last record filed under a path decides what is found there. */
  lemma {:induction false} StatsLookup(es: seq<Entry>, stats: map<string, LineStats>, path: string)
    ensures var all := StatsOfAll(es, stats);
      && (Unkeyed(es, path) ==> (path in all <==> path in stats) && (path in stats ==> all[path] == stats[path]))
      && (forall k: nat :: k < |es| && LastFor(es, k, path) ==>
            path in all && all[path] == LineStats(es[k].added, es[k].deleted))
    decreases |es|
  {
    if es == [] {
    } else {
      var e, rest := es[0], es[1..];
      assert forall i :: 0 <= i < |rest| ==> rest[i] == es[i + 1];
      StatsLookup(rest, stats[Key(e) := LineStats(e.added, e.deleted)], path);
      forall k: nat | k < |es| && LastFor(es, k, path)
        ensures path in StatsOfAll(es, stats) && StatsOfAll(es, stats)[path] == LineStats(es[k].added, es[k].deleted)
      {
        if k > 0 {
          assert LastFor(rest, k - 1, path);
        } else {
          assert Unkeyed(rest, path);
        }
      }
    }
  }

  lemma {:induction false} LastForFrom(es: seq<Entry>, i: nat, path: string) returns (k: nat)
    requires i < |es| && Key(es[i]) == path
    ensures i <= k < |es| && LastFor(es, k, path)
    decreases |es| - i
  {
    if j: nat :| i < j < |es| && Key(es[j]) == path {
      k := LastForFrom(es, j, path);
    } else {
      k := i;
    }
  }

  /** A path that git prints unquoted although it contains the column separator. */
  predicate Tabbed(e: Entry) {
    Key(e) != e.change.path
  }

  predicate NoCounts(e: Entry) {
    e.added == None && e.deleted == None
  }

  /** No counts get lost by being filed under the front part of their path, or by being overwritten from there. */
  ghost predicate TabsHarmless(es: seq<Entry>) {
    && (forall i :: 0 <= i < |es| && Tabbed(es[i]) ==> NoCounts(es[i]))
    && (forall i, j :: 0 <= i < j < |es| && Tabbed(es[j]) && Key(es[j]) == es[i].change.path ==> NoCounts(es[i]))
  }

  /** A tabbed path is no record's key; any other path is first its own record's, then perhaps a tabbed one's. */
  lemma KeysOfPath(es: seq<Entry>, i: nat)
    requires DistinctPaths(es) && i < |es|
    ensures Tabbed(es[i]) ==> Unkeyed(es, es[i].change.path)
    ensures forall k :: 0 <= k < |es| && Key(es[k]) == es[i].change.path && k != i ==> Tabbed(es[k])
  {
    BeforeTabIsFirstColumn(es[i].change.path);
    forall k | 0 <= k < |es| && Key(es[k]) == es[i].change.path && k != i
      ensures Tabbed(es[k]) && !Tabbed(es[i])
    {
      BeforeTabIsFirstColumn(es[k].change.path);
    }
  }

  /** Record `i` gets its own counts back. */
  ghost predicate Restored(es: seq<Entry>, i: nat)
    requires i < |es|
  {
    WithStats(SummaryOf(es[i].change), StatsOfAll(es, map[])) == Counted(es[i])
  }

  lemma RestoredByLookup(es: seq<Entry>, i: nat)
    requires i < |es|
    ensures var e, all := es[i], StatsOfAll(es, map[]);
      Restored(es, i) <==>
        if e.change.path in all
        then all[e.change.path].added == e.added && all[e.change.path].deleted == e.deleted
        else NoCounts(e)
  {
  }

  lemma TabbedRestored(es: seq<Entry>, i: nat)
    requires DistinctPaths(es) && i < |es| && Tabbed(es[i])
    ensures Restored(es, i) <==> NoCounts(es[i])
  {
    KeysOfPath(es, i);
    StatsLookup(es, map[], es[i].change.path);
    RestoredByLookup(es, i);
  }

  lemma UntabbedRestored(es: seq<Entry>, i: nat, k: nat)
    requires DistinctPaths(es) && i <= k < |es| && !Tabbed(es[i]) && LastFor(es, k, es[i].change.path)
    ensures Restored(es, i) <==> es[k].added == es[i].added && es[k].deleted == es[i].deleted
  {
    StatsLookup(es, map[], es[i].change.path);
    RestoredByLookup(es, i);
  }

  lemma RestoredIffHarmless(es: seq<Entry>)
    requires DistinctPaths(es)
    ensures (forall i: nat :: i < |es| ==> Restored(es, i)) <==> TabsHarmless(es)
  {
    forall i: nat | i < |es| && Tabbed(es[i]) ensures Restored(es, i) <==> NoCounts(es[i]) {
      TabbedRestored(es, i);
    }
    if TabsHarmless(es) {
      forall i: nat | i < |es| ensures Restored(es, i) {
        if !Tabbed(es[i]) {
          var k := LastForFrom(es, i, es[i].change.path);
          UntabbedRestored(es, i, k);
          KeysOfPath(es, i);
        }
      }
    }
    if forall i: nat :: i < |es| ==> Restored(es, i) {
      forall i: nat, j: nat | i < j < |es| && Tabbed(es[j]) && Key(es[j]) == es[i].change.path ensures NoCounts(es[i]) {
        var k := LastForFrom(es, j, es[i].change.path);
        KeysOfPath(es, i);
        UntabbedRestored(es, i, k);
        assert Restored(es, i) && Restored(es, k) && Tabbed(es[k]);
      }
    }
  }

  lemma RestoredOneByOne(es: seq<Entry>)
    ensures Joined(Summaries(es), StatsOfAll(es, map[])) == Map(Counted, es)
            <==> forall i: nat :: i < |es| ==> Restored(es, i)
  {
    var joined := Joined(Summaries(es), StatsOfAll(es, map[]));
    forall i: nat | i < |es| ensures Restored(es, i) <==> joined[i] == Map(Counted, es)[i] {
    }
  }

  /**
   * Printing records in both formats and parsing both back returns the same records in order,
   * each with its own counts, exactly when tabs in paths do no harm.
   */
  lemma JoinExactIff(es: seq<Entry>)
    requires AllPrintable(es) && DistinctPaths(es)
    ensures var files := NameStatus(SplitAt(PrintNameStatus(es), IsNul));
      var stats := Numstat(SplitAt(PrintNumstat(es), IsNul), map[]);
      Joined(files, stats) == Map(Counted, es) <==> TabsHarmless(es)
  {
    NameStatusRoundTrip(es);
    NumstatRoundTrip(es, map[]);
    RestoredOneByOne(es);
    RestoredIffHarmless(es);
  }

  /** In particular where no path has a tab, or only those of renames and copies do. */
  lemma JoinRoundTrip(es: seq<Entry>)
    requires AllPrintable(es) && DistinctPaths(es)
    requires forall i :: 0 <= i < |es| && !TwoPaths(es[i].change) ==> TabFree(es[i].change.path)
    ensures var files := NameStatus(SplitAt(PrintNameStatus(es), IsNul));
      var stats := Numstat(SplitAt(PrintNumstat(es), IsNul), map[]);
      Joined(files, stats) == Map(Counted, es)
  {
    forall i | 0 <= i < |es| ensures !Tabbed(es[i]) {
      BeforeTabIsFirstColumn(es[i].change.path);
    }
    JoinExactIff(es);
  }

  /** A text file with a tab in its name is listed without counts. */
  lemma TabCounterexample()
    ensures var es := [Entry(Modified("a\tb"), Some(1), Some(0))];
      Joined(NameStatus(SplitAt(PrintNameStatus(es), IsNul)), Numstat(SplitAt(PrintNumstat(es), IsNul), map[])) !=
      Map(Counted, es)
  {
    var e := Entry(Modified("a\tb"), Some(1), Some(0));
    BeforeTabIsFirstColumn("a\tb");
    assert IsTab("a\tb"[1]);
    assert !TabsHarmless([e]) by {
      assert Tabbed([e][0]);
    }
    JoinExactIff([e]);
  }

  const LEADING_TAB := Entry(Modified("\ta"), Some(1), Some(0))
  const BEHIND := Entry(Modified("b"), Some(2), Some(0))

  /** How the two are printed, in parts. */
  lemma LeadingTabParts()
    ensures SplitAt(PrintNumstat([LEADING_TAB, BEHIND]), IsNul) == ["1\t0\t\ta", "2\t0\tb", ""]
  {
    var first, second := "1\t0\t\ta", "2\t0\tb";
    assert "1" + "\t" + "0" + "\t" + "\ta" == first;
    assert "2" + "\t" + "0" + "\t" + "b" == second;
    assert NumstatParts(LEADING_TAB) == [first] && NumstatParts(BEHIND) == [second];
    assert [LEADING_TAB, BEHIND][1..] == [BEHIND] && [BEHIND][1..] == [];
    assert PrintNumstat([BEHIND]) == Terminated([second]) + "";
    SplitTerminated([second], "");
    SplitTerminated([first], PrintNumstat([BEHIND]));
    assert [first] + ([second] + [""]) == [first, second, ""];
  }

  lemma LeadingTabColumns()
    ensures var columns := SplitAt("1\t0\t\ta", IsTab);
      |columns| > 2 && columns[2] == ""
  {
    assert "1" + "\t" + "0" + "\t" + "\ta" == "1\t0\t\ta";
    assert TabFree("1") && TabFree("0");
    ThreeCells("1", "0", "\ta");
    BeforeTabIsFirstColumn("\ta");
  }

  /** A path that starts with a tab is taken for a rename, which swallows the record behind it. */
  lemma LeadingTabCounterexample()
    ensures Numstat(SplitAt(PrintNumstat([LEADING_TAB, BEHIND]), IsNul), map[]) == map[]
    ensures Joined(Summaries([LEADING_TAB, BEHIND]), map[]) != Map(Counted, [LEADING_TAB, BEHIND])
  {
    LeadingTabParts();
    LeadingTabColumns();
    var parts := ["1\t0\t\ta", "2\t0\tb", ""];
    assert parts[0] != "" && |parts[3..]| == 0;
    assert Numstat(parts, map[]) == Numstat(parts[3..], map[]);
    assert Joined(Summaries([LEADING_TAB, BEHIND]), map[])[1] == SummaryOf(BEHIND.change);
    assert Map(Counted, [LEADING_TAB, BEHIND])[1] == Counted(BEHIND);
  }

  // ---------------------------------------------------------------------------------------
  // Paths that start with a tab, in any surroundings

  /** The parts git prints, and the empty one behind the last NUL. */
  function NumstatRecords(es: seq<Entry>): seq<string> {
    if es == [] then [""] else NumstatParts(es[0]) + NumstatRecords(es[1..])
  }

  lemma {:induction false} RecordsPrinted(es: seq<Entry>)
    requires forall k :: 0 <= k < |es| ==> NulFreeChange(es[k].change)
    ensures SplitAt(PrintNumstat(es), IsNul) == NumstatRecords(es)
  {
    if es == [] {
    } else {
      RecordsPrinted(es[1..]);
      NumstatPartsNulFree(es[0]);
      SplitTerminated(NumstatParts(es[0]), PrintNumstat(es[1..]));
    }
  }

  lemma {:induction false} ColumnsAreTabFree(s: string)
    ensures forall i :: 0 <= i < |SplitAt(s, IsTab)| ==> TabFree(SplitAt(s, IsTab)[i])
  {
    if s == "" {
    } else {
      ColumnsAreTabFree(s[1..]);
    }
  }

  /** Even out of step, the parser files counts under a column or under a whole part only. */
  lemma {:induction false} FiledUnderPart(parts: seq<string>, stats: map<string, LineStats>, path: string)
    requires !TabFree(path) && path !in parts && path !in stats
    ensures path !in Numstat(parts, stats)
    decreases |parts|
  {
    if parts == [] {
    } else {
      var columns := SplitAt(parts[0], IsTab);
      ColumnsAreTabFree(parts[0]);
      if parts[0] == "" || |columns| < 2 {
        FiledUnderPart(parts[1..], stats, path);
      } else if PathField(columns) != "" {
        FiledUnderPart(parts[1..], Insert(stats, PathField(columns), StatsOf(columns)), path);
      } else if |parts| >= 3 {
        FiledUnderPart(parts[3..], Insert(stats, parts[2], StatsOf(columns)), path);
      }
    }
  }

  ghost predicate StartsWithTab(path: string) {
    path != "" && IsTab(path[0])
  }

  /** No record is a rename or a copy from or to this path. */
  ghost predicate NotMoved(es: seq<Entry>, path: string) {
    forall k :: 0 <= k < |es| && TwoPaths(es[k].change) ==> es[k].change.oldPath != path && es[k].change.path != path
  }

  lemma {:induction false} NotAPart(es: seq<Entry>, path: string)
    requires StartsWithTab(path) && NotMoved(es, path)
    ensures path !in NumstatRecords(es)
  {
    if es == [] {
    } else {
      NotAPart(es[1..], path);
      var count := PrintCount(es[0].added);
      assert count[0] == '-' || IsDigit(count[0]);
      assert forall part :: part in NumstatParts(es[0]) ==> part != path;
    }
  }

  /** A file whose path starts with a tab gets no counts, whatever is printed around it. */
  lemma LeadingTabIsUncounted(es: seq<Entry>, i: nat)
    requires i < |es| && (forall k :: 0 <= k < |es| ==> NulFreeChange(es[k].change))
    requires StartsWithTab(es[i].change.path) && NotMoved(es, es[i].change.path)
    ensures var files := NameStatus(SplitAt(PrintNameStatus(es), IsNul));
      var stats := Numstat(SplitAt(PrintNumstat(es), IsNul), map[]);
      && |files| == |es|
      && Joined(files, stats)[i] == SummaryOf(es[i].change)
      && (Joined(files, stats)[i] == Counted(es[i]) <==> NoCounts(es[i]))
  {
    NameStatusRoundTrip(es);
    RecordsPrinted(es);
    NotAPart(es, es[i].change.path);
    FiledUnderPart(NumstatRecords(es), map[], es[i].change.path);
  }

  // ---------------------------------------------------------------------------------------
  // What such a path costs the records behind it, if there are no other tabs

  predicate LeadingTab(e: Entry) {
    !TwoPaths(e.change) && e.change.path != "" && IsTab(e.change.path[0])
  }

  /** The only tabs are those in front of plain paths. */
  ghost predicate NoInnerTab(e: Entry) {
    && NulFreeChange(e.change) && e.change.path != "" && CountFits(e.added) && CountFits(e.deleted)
    && (LeadingTab(e) || TabFree(e.change.path))
    && (TwoPaths(e.change) ==> TabFree(e.change.oldPath) && e.change.oldPath != "")
  }

  ghost predicate NoInnerTabs(es: seq<Entry>) {
    forall k :: 0 <= k < |es| ==> NoInnerTab(es[k])
  }

  /** How many records a leading tab swallows: two, or one if that is the last, a rename or a copy. */
  function Swallowed(rest: seq<Entry>): (n: nat)
    ensures n <= |rest|
  {
    if rest == [] then 0 else if TwoPaths(rest[0].change) || |rest| == 1 then 1 else 2
  }

  /** The parser reads record `i` as what it is. */
  ghost predicate IsRead(es: seq<Entry>, i: int)
    decreases |es|
  {
    && 0 <= i < |es|
    && if LeadingTab(es[0]) then IsRead(es[1 + Swallowed(es[1..])..], i - 1 - Swallowed(es[1..]))
       else i == 0 || IsRead(es[1..], i - 1)
  }

  function CountsOf(e: Entry): LineStats { LineStats(e.added, e.deleted) }

  /** The counts by path, up to those filed under what is no path. */
  function ReadStats(es: seq<Entry>, stats: map<string, LineStats>): map<string, LineStats>
    decreases |es|
  {
    if es == [] then stats
    else if LeadingTab(es[0]) then ReadStats(es[1 + Swallowed(es[1..])..], AfterLeading(es, stats))
    else ReadStats(es[1..], stats[es[0].change.path := CountsOf(es[0])])
  }

  /** The counts of a file with a leading tab go to the old path of a rename or copy behind it. */
  function AfterLeading(es: seq<Entry>, stats: map<string, LineStats>): map<string, LineStats>
    requires es != []
  {
    if |es| > 1 && TwoPaths(es[1].change) then stats[es[1].change.oldPath := CountsOf(es[0])] else stats
  }

  /** A path as they occur here. */
  ghost predicate IsPath(s: string) {
    s != "" && (TabFree(s) || IsTab(s[0]))
  }

  ghost predicate SameOnPaths(m: map<string, LineStats>, n: map<string, LineStats>) {
    forall s :: IsPath(s) ==> (s in m <==> s in n) && (s in m ==> m[s] == n[s])
  }

  lemma SkippedPart(part: string, rest: seq<string>, stats: map<string, LineStats>)
    requires TabFree(part)
    ensures Numstat([part] + rest, stats) == Numstat(rest, stats)
  {
    SplitNone(part, IsTab);
    assert ([part] + rest)[1..] == rest;
  }

  /** Three parts go to a record with a leading tab. */
  lemma LeadingOne(e: Entry, rest: seq<string>, stats: map<string, LineStats>)
    requires LeadingTab(e) && CountFits(e.added) && CountFits(e.deleted)
    ensures Numstat(NumstatParts(e) + rest, stats) ==
      if |rest| < 2 then stats else Numstat(rest[2..], Insert(stats, rest[1], CountsOf(e)))
  {
    var parts := NumstatParts(e) + rest;
    PrintCountParses(e.added);
    PrintCountParses(e.deleted);
    RecordColumns(e.added, e.deleted, e.change.path);
    BeforeTabIsFirstColumn(e.change.path);
    if |rest| >= 2 { assert parts[3..] == rest[2..]; }
  }

  /** The first part of a printed record is no path. */
  lemma RecordIsNoPath(e: Entry)
    ensures NumstatParts(e)[0] != "" && !IsPath(NumstatParts(e)[0])
  {
    var count, part := PrintCount(e.added), NumstatParts(e)[0];
    assert count[0] == '-' || IsDigit(count[0]);
    assert part[0] == count[0] && part[|count|] == '\t';
  }

  lemma {:induction false} NumstatReads(es: seq<Entry>, m: map<string, LineStats>, n: map<string, LineStats>)
    requires NoInnerTabs(es) && SameOnPaths(m, n)
    ensures SameOnPaths(Numstat(NumstatRecords(es), m), ReadStats(es, n))
    decreases |es|
  {
    if es == [] {
      assert SplitAt("", IsTab) == [""] && [""][1..] == [];
    } else if LeadingTab(es[0]) {
      var m' := LeadingReads(es, m);
      NumstatReads(es[1 + Swallowed(es[1..])..], m', AfterLeading(es, n));
    } else {
      var e := es[0];
      assert NoInnerTab(e);
      NumstatOne(e, NumstatRecords(es[1..]), m);
      BeforeTabIsFirstColumn(e.change.path);
      NumstatReads(es[1..], m[e.change.path := CountsOf(e)], n[e.change.path := CountsOf(e)]);
    }
  }

  /** One record with a leading tab, and the parts that go with it. */
  lemma LeadingReads(es: seq<Entry>, m: map<string, LineStats>) returns (m': map<string, LineStats>)
    requires NoInnerTabs(es) && es != [] && LeadingTab(es[0])
    ensures SameOnPaths(m', AfterLeading(es, m))
    ensures Numstat(NumstatRecords(es), m) == Numstat(NumstatRecords(es[1 + Swallowed(es[1..])..]), m')
  {
    m' := AfterLeading(es, m);
    if |es| == 1 {
      assert NoInnerTab(es[0]) && es[1..] == [];
      LeadingOne(es[0], [""], m);
      NothingLeft(m);
    } else if TwoPaths(es[1].change) {
      LeadingBeforeMove(es, m);
    } else if |es| == 2 {
      LeadingBeforeLast(es, m);
    } else {
      LeadingBeforeTwo(es, m);
      m' := m[NumstatParts(es[2])[0] := CountsOf(es[0])];
    }
  }

  lemma RecordsFrom(es: seq<Entry>, k: nat)
    requires k < |es|
    ensures NumstatRecords(es[k..]) == NumstatParts(es[k]) + NumstatRecords(es[k + 1..])
  {
    assert es[k..][1..] == es[k + 1..];
  }

  lemma NothingLeft(m: map<string, LineStats>)
    ensures Numstat(NumstatRecords([]), m) == m
  {
    assert [""][1..] == [];
  }

  lemma LeadingBeforeMove(es: seq<Entry>, m: map<string, LineStats>)
    requires NoInnerTabs(es) && |es| > 1 && LeadingTab(es[0]) && TwoPaths(es[1].change)
    ensures Numstat(NumstatRecords(es), m) == Numstat(NumstatRecords(es[2..]), AfterLeading(es, m))
  {
    var c, behind := es[1].change, NumstatRecords(es[2..]);
    assert NoInnerTab(es[0]) && NoInnerTab(es[1]);
    LeadingOne(es[0], NumstatRecords(es[1..]), m);
    RecordsFrom(es, 1);
    BehindSecond(NumstatParts(es[1]), behind);
    SkippedPart(c.path, behind, AfterLeading(es, m));
  }

  lemma LeadingBeforeLast(es: seq<Entry>, m: map<string, LineStats>)
    requires NoInnerTabs(es) && |es| == 2 && LeadingTab(es[0]) && !TwoPaths(es[1].change)
    ensures Numstat(NumstatRecords(es), m) == m == Numstat(NumstatRecords(es[2..]), m)
  {
    assert NoInnerTab(es[0]) && es[2..] == [];
    LeadingOne(es[0], NumstatRecords(es[1..]), m);
    RecordsFrom(es, 1);
    assert NumstatRecords(es[1..])[2..] == [] && NumstatRecords(es[1..])[1] == "";
    NothingLeft(m);
  }

  lemma LeadingBeforeTwo(es: seq<Entry>, m: map<string, LineStats>)
    requires NoInnerTabs(es) && |es| > 2 && LeadingTab(es[0]) && !TwoPaths(es[1].change)
    ensures var m' := m[NumstatParts(es[2])[0] := CountsOf(es[0])];
      SameOnPaths(m', m) && Numstat(NumstatRecords(es), m) == Numstat(NumstatRecords(es[3..]), m')
  {
    var m', parts := m[NumstatParts(es[2])[0] := CountsOf(es[0])], NumstatRecords(es[1..]);
    assert NoInnerTab(es[0]) && NoInnerTab(es[2]);
    RecordIsNoPath(es[2]);
    LeadingOne(es[0], parts, m);
    RecordsFrom(es, 1);
    RecordsFrom(es, 2);
    BehindFirst(NumstatParts(es[1]), NumstatParts(es[2]), NumstatRecords(es[3..]));
    PathsSkipped(es[2], NumstatRecords(es[3..]), m');
  }

  lemma BehindSecond(a: seq<string>, rest: seq<string>)
    requires |a| == 3
    ensures (a + rest)[1] == a[1] && (a + rest)[2..] == [a[2]] + rest
  {
  }

  lemma BehindFirst(a: seq<string>, b: seq<string>, rest: seq<string>)
    requires |a| == 1 && b != []
    ensures (a + (b + rest))[1] == b[0] && (a + (b + rest))[2..] == b[1..] + rest
  {
  }

  /** The paths of a rename or copy that are read as records of their own. */
  lemma PathsSkipped(e: Entry, behind: seq<string>, stats: map<string, LineStats>)
    requires NoInnerTab(e)
    ensures Numstat(NumstatParts(e)[1..] + behind, stats) == Numstat(behind, stats)
  {
    if TwoPaths(e.change) {
      assert NumstatParts(e)[1..] + behind == [e.change.oldPath] + ([e.change.path] + behind);
      SkippedPart(e.change.oldPath, [e.change.path] + behind, stats);
      SkippedPart(e.change.path, behind, stats);
    } else {
      assert NumstatParts(e)[1..] + behind == behind;
    }
  }

  /** No record's path is the source of a rename or a copy. */
  ghost predicate SourcesApart(es: seq<Entry>) {
    forall i, k :: 0 <= i < |es| && 0 <= k < |es| && TwoPaths(es[k].change) ==>
      es[k].change.oldPath != es[i].change.path
  }

  /** `path` is filed with the counts of a record that is read, or as before. */
  lemma {:induction false} ReadLookup(es: seq<Entry>, stats: map<string, LineStats>, path: string)
    requires DistinctPaths(es)
    requires forall k :: 0 <= k < |es| && TwoPaths(es[k].change) ==> es[k].change.oldPath != path
    ensures var all := ReadStats(es, stats);
      && (forall i: nat :: IsRead(es, i) && es[i].change.path == path ==> path in all && all[path] == CountsOf(es[i]))
      && ((forall i: nat :: IsRead(es, i) ==> es[i].change.path != path) ==>
            (path in all <==> path in stats) && (path in all ==> all[path] == stats[path]))
    decreases |es|
  {
    if es == [] {
    } else {
      var k := if LeadingTab(es[0]) then 1 + Swallowed(es[1..]) else 1;
      var rest := es[k..];
      assert forall i :: 0 <= i < |rest| ==> rest[i] == es[i + k];
      var own := stats[es[0].change.path := CountsOf(es[0])];
      ReadLookup(rest, if LeadingTab(es[0]) then AfterLeading(es, stats) else own, path);
      forall i: nat | IsRead(es, i) && es[i].change.path == path
        ensures path in ReadStats(es, stats) && ReadStats(es, stats)[path] == CountsOf(es[i])
      {
        if LeadingTab(es[0]) || i > 0 {
          assert IsRead(rest, i - k);
        } else {
          assert forall j: nat :: IsRead(rest, j) ==> rest[j].change.path == es[j + k].change.path != path;
        }
      }
      if forall i: nat :: IsRead(es, i) ==> es[i].change.path != path {
        forall j: nat | IsRead(rest, j) ensures rest[j].change.path != path {
          assert IsRead(es, j + k);
        }
        assert !LeadingTab(es[0]) ==> IsRead(es, 0);
      }
    }
  }

  /**
   * Where the only tabs are those in front of plain paths, the join returns every record with its
   * own counts exactly if those that are not read, the ones with the tab and those they swallow,
   * have no counts.
   */
  lemma JoinExactIffRead(es: seq<Entry>)
    requires NoInnerTabs(es) && DistinctPaths(es) && SourcesApart(es)
    ensures var files := NameStatus(SplitAt(PrintNameStatus(es), IsNul));
      var stats := Numstat(SplitAt(PrintNumstat(es), IsNul), map[]);
      Joined(files, stats) == Map(Counted, es) <==> forall i: nat :: i < |es| ==> IsRead(es, i) || NoCounts(es[i])
  {
    var stats := Numstat(SplitAt(PrintNumstat(es), IsNul), map[]);
    assert forall k :: 0 <= k < |es| ==> NoInnerTab(es[k]) && NulFreeChange(es[k].change);
    NameStatusRoundTrip(es);
    RecordsPrinted(es);
    NumstatReads(es, map[], map[]);
    var joined := Joined(Summaries(es), stats);
    forall i: nat | i < |es| ensures joined[i] == Map(Counted, es)[i] <==> IsRead(es, i) || NoCounts(es[i]) {
      CountsFoundIff(es, i, stats);
    }
  }

  lemma CountsFoundIff(es: seq<Entry>, i: nat, stats: map<string, LineStats>)
    requires NoInnerTabs(es) && DistinctPaths(es) && SourcesApart(es) && i < |es|
    requires SameOnPaths(stats, ReadStats(es, map[]))
    ensures WithStats(SummaryOf(es[i].change), stats) == Counted(es[i]) <==> IsRead(es, i) || NoCounts(es[i])
  {
    var path := es[i].change.path;
    assert NoInnerTab(es[i]) && IsPath(path);
    ReadLookup(es, map[], path);
    if !IsRead(es, i) {
      forall j: nat | IsRead(es, j) ensures es[j].change.path != path {
        assert i != j;
      }
    }
  }
}
