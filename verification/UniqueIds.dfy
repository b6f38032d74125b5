/** The two generators of unique IDs, whose search loops have no bound of their own. */
module FreshSuffix {
  import opened Decimals

  /** `{base}-{n}`. */
  function Candidate(base: string, n: nat): string {
    base + "-" + Decimal(n)
  }

  lemma CandidateInjective(base: string, m: nat, n: nat)
    requires Candidate(base, m) == Candidate(base, n)
    ensures m == n
  {
    assert Candidate(base, m)[|base| + 1..] == Decimal(m);
    assert Candidate(base, n)[|base| + 1..] == Decimal(n);
    DecimalInjective(m, n);
  }

  ghost function Tried(base: string, from: nat, n: nat): set<string>
    requires from <= n
  {
    set k | from <= k < n :: Candidate(base, k)
  }

  /** Pigeonhole: the used set has room for only so many failed attempts. */
  lemma {:induction false} TriedSize(base: string, from: nat, n: nat)
    requires from <= n
    ensures |Tried(base, from, n)| == n - from
    decreases n - from
  {
    if from == n {
      assert Tried(base, from, n) == {};
    } else {
      TriedSize(base, from, n - 1);
      assert Tried(base, from, n) == Tried(base, from, n - 1) + {Candidate(base, n - 1)};
      if Candidate(base, n - 1) in Tried(base, from, n - 1) {
        var k :| from <= k < n - 1 && Candidate(base, k) == Candidate(base, n - 1);
        CandidateInjective(base, k, n - 1);
      }
    }
  }

  lemma SubsetSize<T>(a: set<T>, b: set<T>)
    requires a <= b
    ensures |a| <= |b|
  {
    assert b == a + (b - a);
  }

  /** `id` is the first unused one of base-from, base-(from+1), ... */
  ghost predicate FirstUnused(used: set<string>, base: string, from: nat, id: string) {
    exists n :: IsFirst(used, base, from, n) && id == Candidate(base, n)
  }

  ghost predicate IsFirst(used: set<string>, base: string, from: nat, n: nat) {
    && from <= n <= from + |used|
    && Candidate(base, n) !in used
    && forall k :: from <= k < n ==> Candidate(base, k) in used
  }

  /** The search loop: it ends after at most as many failures as there are used IDs. */
  method Search(used: set<string>, base: string, from: nat) returns (id: string)
    ensures FirstUnused(used, base, from, id) && id !in used
  {
    var i := from;
    while Candidate(base, i) in used
      invariant from <= i <= from + |used|
      invariant forall k :: from <= k < i ==> Candidate(base, k) in used
      decreases from + |used| - i
    {
      TriedSize(base, from, i + 1);
      SubsetSize(Tried(base, from, i + 1), used);
      i := i + 1;
    }
    assert IsFirst(used, base, from, i);
    return Candidate(base, i);
  }
}

/** Heading IDs, apps/penpal/internal/markdown/markdown.go. Text is bytes. */
module HeadingIds {
  import opened Characters
  import opened FreshSuffix

  /** The parts of the markdown library that decide how a heading is slugged. */
  datatype Library = Library(
    trim: string -> string,
    utf8Length: char -> nat,
    isAlphaNumeric: char -> bool,
    isSpace: char -> bool)

  ghost predicate Advances(lib: Library) {
    forall c :: lib.utf8Length(c) > 0
  }

  function SlugChar(lib: Library, c: char): string {
    if lib.utf8Length(c) != 1 then ""
    else if lib.isAlphaNumeric(c) then [Lower(c)]
    else if lib.isSpace(c) || c == '-' || c == '_' then "-"
    else ""
  }

  /** The characters kept from byte `i` on; bytes of longer sequences are skipped together. */
  function SlugFrom(lib: Library, value: string, i: nat): string
    requires Advances(lib)
    decreases |value| - i
  {
    if i >= |value| then "" else SlugChar(lib, value[i]) + SlugFrom(lib, value, i + lib.utf8Length(value[i]))
  }

  function BaseId(lib: Library, prefix: string, value: string, isHeading: bool): string
    requires Advances(lib)
  {
    var slug := SlugFrom(lib, lib.trim(value), 0);
    prefix + if slug != "" then slug else if isHeading then "heading" else "id"
  }

  /** What has been handed out or taken, in order. */
  datatype Event = Generated(id: string) | Taken(id: string)

  ghost function IdsIn(log: seq<Event>): set<string> {
    set e | e in log :: e.id
  }

  lemma IdsAppend(log: seq<Event>, e: Event)
    ensures IdsIn(log + [e]) == IdsIn(log) + {e.id}
    ensures forall i :: 0 <= i < |log| ==> log[i].id in IdsIn(log)
  {
    assert e in log + [e];
    assert forall x :: x in log ==> x in log + [e];
    assert forall i :: 0 <= i < |log| ==> log[i] in log;
  }

  /** No generated ID equals one that was generated or taken before it. */
  ghost predicate NeverRepeats(log: seq<Event>) {
    forall i, j :: 0 <= i < j < |log| && log[j].Generated? ==> log[i].id != log[j].id
  }

  ghost predicate AllPrefixed(log: seq<Event>, prefix: string) {
    forall i :: 0 <= i < |log| && log[i].Generated? ==> prefix <= log[i].id
  }

  lemma SlugIsEmpty(prefix: string, slug: string)
    ensures |prefix + slug| == |prefix| <==> slug == ""
    ensures prefix + "" == prefix && prefix <= prefix + slug
  {
  }

  /** The loop over the bytes of the heading, appending to the prefix. */
  method SlugBytes(lib: Library, prefix: string, trimmed: string) returns (result: string)
    requires Advances(lib)
    ensures result == prefix + SlugFrom(lib, trimmed, 0)
  {
    result := prefix;
    var i := 0;
    while i < |trimmed|
      invariant prefix + SlugFrom(lib, trimmed, 0) == result + SlugFrom(lib, trimmed, i)
      decreases |trimmed| - i
    {
      var v := trimmed[i];
      var l := lib.utf8Length(v);
      ghost var was := result;
      if l == 1 {
        if lib.isAlphaNumeric(v) {
          result := result + [Lower(v)];
        } else if lib.isSpace(v) || v == '-' || v == '_' {
          result := result + "-";
        }
      }
      SlugNext(lib, trimmed, i, was, result);
      i := i + l;
    }
  }

  lemma SlugNext(lib: Library, trimmed: string, i: nat, was: string, result: string)
    requires Advances(lib) && i < |trimmed| && result == was + SlugChar(lib, trimmed[i])
    ensures was + SlugFrom(lib, trimmed, i) == result + SlugFrom(lib, trimmed, i + lib.utf8Length(trimmed[i]))
  {
  }

  class PrefixedIds {
    const prefix: string
    var used: set<string>
    ghost var log: seq<Event>

    ghost predicate Valid()
      reads this
    {
      && used == IdsIn(log)
      && NeverRepeats(log)
      && AllPrefixed(log, prefix)
    }

    constructor (prefix: string)
      ensures Valid() && this.prefix == prefix && log == []
    {
      this.prefix := prefix;
      used, log := {}, [];
    }

    method Generate(lib: Library, value: string, isHeading: bool) returns (id: string)
      requires Valid() && Advances(lib)
      modifies this
      ensures Valid() && log == old(log) + [Generated(id)]
      ensures prefix <= id && id !in old(used) && used == old(used) + {id}
      ensures var base := BaseId(lib, prefix, value, isHeading);
        if base in old(used) then FirstUnused(old(used), base, 1, id) else id == base
    {
      var result := SlugBytes(lib, prefix, lib.trim(value));
      SlugIsEmpty(prefix, SlugFrom(lib, lib.trim(value), 0));
      if |result| == |prefix| {
        result := result + if isHeading then "heading" else "id";
      }
      assert result == BaseId(lib, prefix, value, isHeading);
      id := result;
      if id in used {
        id := Search(used, result, 1);
      }
      used := used + {id};
      Record(Generated(id));
    }

    method Put(value: string)
      requires Valid()
      modifies this
      ensures Valid() && log == old(log) + [Taken(value)] && used == old(used) + {value}
    {
      used := used + {value};
      Record(Taken(value));
    }

    ghost method Record(e: Event)
      requires used == IdsIn(log) + {e.id}
      requires NeverRepeats(log) && AllPrefixed(log, prefix)
      requires e.Generated? ==> prefix <= e.id && e.id !in IdsIn(log)
      modifies this`log
      ensures log == old(log) + [e] && Valid()
    {
      IdsAppend(log, e);
      log := log + [e];
      assert forall i :: 0 <= i < |log| - 1 ==> log[i] == old(log)[i];
    }
  }
}

/** Timeout diagnostics, crates/doctor/src/lib.rs. */
module TimeoutDiagnostics {
  import opened Characters
  import opened Collections
  import opened FreshSuffix

  datatype CommandTimeout = CommandTimeout(what: string, command: string, timeoutNanos: nat)

  datatype DoctorCheck = DoctorCheck(id: string, subject: CommandTimeout)

  predicate IsAlphanumeric(c: char) {
    '0' <= c <= '9' || 'a' <= c <= 'z' || 'A' <= c <= 'Z'
  }

  /** Runs of other characters become one dash. */
  function Dashed(s: string): string {
    if s == "" then "" else
      var r := Dashed(s[..|s| - 1]);
      var c := s[|s| - 1];
      if IsAlphanumeric(c) then r + [Lower(c)]
      else if r != "" && r[|r| - 1] == '-' then r
      else r + "-"
  }

  function TrimStart(s: string): string {
    if s != "" && s[0] == '-' then TrimStart(s[1..]) else s
  }

  function TrimEnd(s: string): string {
    if s != "" && s[|s| - 1] == '-' then TrimEnd(s[..|s| - 1]) else s
  }

  function Slug(s: string): string {
    TrimEnd(TrimStart(Dashed(s)))
  }

  function BaseId(t: CommandTimeout): string {
    "subprocess-timeout-" + Slug(t.what + " " + t.command)
  }

  /** The ID a timeout gets, given the stable suffix (a hash) of its fingerprint. */
  ghost predicate IdFor(t: CommandTimeout, suffix: CommandTimeout -> string, used: set<string>, id: string) {
    var suffixed := BaseId(t) + "-" + suffix(t);
    if BaseId(t) !in used then id == BaseId(t)
    else if suffixed !in used then id == suffixed
    else FirstUnused(used, suffixed, 2, id)
  }

  method UniqueTimeoutDiagnosticId(t: CommandTimeout, suffix: CommandTimeout -> string, used: set<string>)
    returns (id: string, used': set<string>)
    ensures IdFor(t, suffix, used, id) && id !in used && used' == used + {id}
  {
    var base := BaseId(t);
    if base !in used {
      return base, used + {base};
    }
    var suffixed := base + "-" + suffix(t);
    if suffixed !in used {
      return suffixed, used + {suffixed};
    }
    id := Search(used, suffixed, 2);
    used' := used + {id};
  }

  /** The distinct elements, in the order in which they first appear. */
  function FirstSeen(ts: seq<CommandTimeout>): seq<CommandTimeout> {
    if ts == [] then [] else
      var init, last := ts[..|ts| - 1], ts[|ts| - 1];
      FirstSeen(init) + if last in init then [] else [last]
  }

  ghost function IdsOf(checks: seq<DoctorCheck>): set<string> {
    set c | c in checks :: c.id
  }

  /** Each check got its ID when the earlier checks' IDs were in use. */
  ghost predicate IdsAssigned(checks: seq<DoctorCheck>, suffix: CommandTimeout -> string) {
    forall k :: 0 <= k < |checks| ==> AssignedAt(checks, suffix, k)
  }

  ghost predicate AssignedAt(checks: seq<DoctorCheck>, suffix: CommandTimeout -> string, k: nat)
    requires k < |checks|
  {
    IdFor(checks[k].subject, suffix, IdsOf(checks[..k]), checks[k].id)
  }

  ghost predicate DistinctCheckIds(checks: seq<DoctorCheck>) {
    forall i, j :: 0 <= i < j < |checks| ==> checks[i].id != checks[j].id
  }

  function Subjects(checks: seq<DoctorCheck>): seq<CommandTimeout> {
    Map((c: DoctorCheck) => c.subject, checks)
  }

  /** One check per distinct timeout, in first-seen order, each with an ID of its own. */
  method TimeoutDiagnosticChecks(timeouts: seq<CommandTimeout>, suffix: CommandTimeout -> string)
    returns (checks: seq<DoctorCheck>)
    ensures Subjects(checks) == FirstSeen(timeouts)
    ensures DistinctCheckIds(checks) && IdsAssigned(checks, suffix)
  {
    var seen: set<CommandTimeout>, usedIds: set<string> := {}, {};
    checks := [];
    for i := 0 to |timeouts|
      invariant seen == set t | t in timeouts[..i]
      invariant Subjects(checks) == FirstSeen(timeouts[..i])
      invariant usedIds == IdsOf(checks)
      invariant DistinctCheckIds(checks) && IdsAssigned(checks, suffix)
    {
      var timeout := timeouts[i];
      assert timeouts[..i + 1][..i] == timeouts[..i];
      assert timeouts[..i + 1] == timeouts[..i] + [timeout];
      if timeout in seen {
        assert FirstSeen(timeouts[..i]) + [] == FirstSeen(timeouts[..i]);
        continue;
      }
      seen := seen + {timeout};
      var id;
      id, usedIds := UniqueTimeoutDiagnosticId(timeout, suffix, usedIds);
      AddCheck(checks, DoctorCheck(id, timeout), suffix);
      checks := checks + [DoctorCheck(id, timeout)];
    }
    assert timeouts[..|timeouts|] == timeouts;
  }

  lemma AddCheck(checks: seq<DoctorCheck>, c: DoctorCheck, suffix: CommandTimeout -> string)
    requires DistinctCheckIds(checks) && IdsAssigned(checks, suffix)
    requires IdFor(c.subject, suffix, IdsOf(checks), c.id) && c.id !in IdsOf(checks)
    ensures var all := checks + [c];
      && DistinctCheckIds(all) && IdsAssigned(all, suffix)
      && IdsOf(all) == IdsOf(checks) + {c.id} && Subjects(all) == Subjects(checks) + [c.subject]
  {
    IdsOfAppend(checks, c);
    AddAssigned(checks, c, suffix);
  }

  lemma AddAssigned(checks: seq<DoctorCheck>, c: DoctorCheck, suffix: CommandTimeout -> string)
    requires IdsAssigned(checks, suffix) && IdFor(c.subject, suffix, IdsOf(checks), c.id)
    ensures IdsAssigned(checks + [c], suffix)
  {
    var all := checks + [c];
    forall k: nat | k < |all| ensures AssignedAt(all, suffix, k) {
      assert all[..k] == checks[..k];
      if k < |checks| {
        assert AssignedAt(checks, suffix, k);
      } else {
        assert checks[..k] == checks;
      }
    }
  }

  lemma IdsOfAppend(checks: seq<DoctorCheck>, c: DoctorCheck)
    ensures IdsOf(checks + [c]) == IdsOf(checks) + {c.id}
    ensures forall i :: 0 <= i < |checks| ==> checks[i].id in IdsOf(checks)
  {
    assert c in checks + [c];
    assert forall x :: x in checks ==> x in checks + [c];
    assert forall i :: 0 <= i < |checks| ==> checks[i] in checks;
  }

  /** `FirstSeen` keeps one of each. */
  lemma {:induction false} FirstSeenExact(ts: seq<CommandTimeout>)
    ensures forall t :: t in FirstSeen(ts) <==> t in ts
    ensures forall i, j :: 0 <= i < j < |FirstSeen(ts)| ==> FirstSeen(ts)[i] != FirstSeen(ts)[j]
  {
    if ts == [] {
    } else {
      var init, last := ts[..|ts| - 1], ts[|ts| - 1];
      FirstSeenExact(init);
      assert ts == init + [last];
      assert forall i :: 0 <= i < |FirstSeen(init)| ==> FirstSeen(init)[i] in FirstSeen(init);
    }
  }
}
