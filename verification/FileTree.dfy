/** Paths and a finite file tree without symbolic links. */
module FileTree {
  import opened Collections

  /** A clean path as its components; [] is the root of the tree. */
  type Path = seq<string>

  datatype Node =
    | File(modTime: int, title: string)
    | Dir(modTime: int, entries: seq<Entry>)

  datatype Entry = Entry(name: string, node: Node)

  function FindEntry(entries: seq<Entry>, name: string): Option<Node> {
    if entries == [] then None
    else if entries[0].name == name then Some(entries[0].node)
    else FindEntry(entries[1..], name)
  }

  function Lookup(n: Node, p: Path): Option<Node>
    decreases p
  {
    if p == [] then Some(n) else
      match n
      case File(_, _) => None
      case Dir(_, entries) =>
        match FindEntry(entries, p[0])
        case None => None
        case Some(m) => Lookup(m, p[1..])
  }

  predicate IsFile(n: Node, p: Path) {
    var r := Lookup(n, p);
    r.Some? && r.value.File?
  }

  /** No directory lists a name twice, and no entry is called "..". */
  ghost predicate WellFormed(n: Node) {
    match n
    case File(_, _) => true
    case Dir(_, entries) => WellFormedEntries(entries)
  }

  ghost predicate WellFormedEntries(entries: seq<Entry>) {
    entries == [] ||
    (&& entries[0].name != ".."
     && WellFormed(entries[0].node)
     && FindEntry(entries[1..], entries[0].name) == None
     && WellFormedEntries(entries[1..]))
  }

  function Base(p: Path): string {
    if p == [] then "/" else p[|p| - 1]
  }

  function Parent(p: Path): Path {
    if p == [] then [] else p[..|p| - 1]
  }

  predicate HasMdSuffix(p: Path) {
    var b := Base(p);
    |b| >= 3 && b[|b| - 3..] == ".md"
  }

  // ---------------------------------------------------------------------------------------
  // Relative paths

  function CommonLength(a: Path, b: Path): (c: nat)
    ensures c <= |a| && c <= |b| && a[..c] == b[..c]
    ensures c < |a| && c < |b| ==> a[c] != b[c]
  {
    if a != [] && b != [] && a[0] == b[0] then
      var c := CommonLength(a[1..], b[1..]);
      assert a[..c + 1] == [a[0]] + a[1..][..c] && b[..c + 1] == [b[0]] + b[1..][..c];
      1 + c
    else 0
  }

  function Ups(n: nat): Path { seq(n, _ => "..") }

  /** `filepath.Rel(base, target)`; [] stands for ".". */
  function Rel(base: Path, target: Path): Path {
    var c := CommonLength(base, target);
    Ups(|base| - c) + target[c..]
  }

  ghost predicate Clean(p: Path) { ".." !in p }

  /** `strings.HasPrefix(rel, "..")`. */
  predicate Escapes(rel: Path) {
    rel != [] && |rel[0]| >= 2 && rel[0][..2] == ".."
  }

  lemma LeadingUps(n: nat, rest: Path, m: nat, rest': Path)
    requires Ups(n) + rest == Ups(m) + rest' && Clean(rest')
    ensures n <= m
  {
    var r := Ups(m) + rest';
    assert m < |r| ==> r[m] == rest'[0];
    assert forall i :: 0 <= i < n ==> r[i] == "..";
  }

  /** A relative path determines its target. */
  lemma RelInjective(base: Path, p: Path, q: Path)
    requires Clean(p) && Clean(q) && Rel(base, p) == Rel(base, q)
    ensures p == q
  {
    var c, d := CommonLength(base, p), CommonLength(base, q);
    var r := Rel(base, p);
    LeadingUps(|base| - c, p[c..], |base| - d, q[d..]);
    LeadingUps(|base| - d, q[d..], |base| - c, p[c..]);
    assert p[c..] == r[|base| - c..] == q[d..];
    assert p == p[..c] + p[c..] && q == q[..d] + q[d..];
  }

  lemma {:induction false} ExistingPathIsClean(n: Node, p: Path)
    requires WellFormed(n) && Lookup(n, p).Some?
    ensures Clean(p)
    decreases p
  {
    if p == [] {
    } else {
      FoundEntryIsWellFormed(n.entries, p[0]);
      ExistingPathIsClean(FindEntry(n.entries, p[0]).value, p[1..]);
      assert p == [p[0]] + p[1..];
    }
  }

  lemma {:induction false} FoundEntryIsWellFormed(entries: seq<Entry>, name: string)
    requires WellFormedEntries(entries) && FindEntry(entries, name).Some?
    ensures name != ".." && WellFormed(FindEntry(entries, name).value)
  {
    if entries[0].name == name {
    } else {
      FoundEntryIsWellFormed(entries[1..], name);
    }
  }

  lemma {:induction false} LookupCompose(n: Node, p: Path, q: Path)
    requires Lookup(n, p).Some?
    ensures Lookup(n, p + q) == Lookup(Lookup(n, p).value, q)
    decreases p
  {
    if p == [] {
      assert p + q == q;
    } else {
      assert (p + q)[1..] == p[1..] + q;
      LookupCompose(FindEntry(n.entries, p[0]).value, p[1..], q);
    }
  }

  // ---------------------------------------------------------------------------------------
  // Trees that differ in one file

  datatype Kind = Missing | Directory | Regular(modTime: int, title: string)

  /** What can be observed at a path without listing directories. */
  function KindAt(n: Node, p: Path): Kind {
    match Lookup(n, p)
    case None => Missing
    case Some(File(m, t)) => Regular(m, t)
    case Some(Dir(_, _)) => Directory
  }

  /** The trees agree everywhere but at `p`, which is a regular file or missing in each. */
  ghost predicate DifferOnlyAt(n: Node, n': Node, p: Path) {
    && (forall q :: q != p ==> KindAt(n, q) == KindAt(n', q))
    && KindAt(n, p) != Directory && KindAt(n', p) != Directory
  }

  /** Writes a regular file into an existing directory. */
  function PutFile(n: Node, p: Path, modTime: int, title: string): Node
    requires p != []
    decreases p
  {
    match n
    case File(_, _) => n
    case Dir(m, entries) =>
      if |p| == 1 then Dir(m, SetEntry(entries, p[0], File(modTime, title)))
      else match FindEntry(entries, p[0])
        case None => n
        case Some(child) => Dir(m, SetEntry(entries, p[0], PutFile(child, p[1..], modTime, title)))
  }

  function SetEntry(entries: seq<Entry>, name: string, node: Node): seq<Entry> {
    if entries == [] then [Entry(name, node)]
    else if entries[0].name == name then [Entry(name, node)] + entries[1..]
    else [entries[0]] + SetEntry(entries[1..], name, node)
  }

  lemma {:induction false} FindInSetEntry(entries: seq<Entry>, name: string, node: Node, other: string)
    ensures FindEntry(SetEntry(entries, name, node), other) ==
            if other == name then Some(node) else FindEntry(entries, other)
  {
    if entries != [] && entries[0].name != name { FindInSetEntry(entries[1..], name, node, other); }
  }

  lemma KindBelow(n: Node, q: Path)
    requires q != [] && n.Dir?
    ensures KindAt(n, q) == match FindEntry(n.entries, q[0])
                            case None => Missing
                            case Some(m) => KindAt(m, q[1..])
  {
  }

  /** Creating or rewriting a file changes what can be observed at its own path only. */
  lemma {:induction false} PutFileIsLocal(n: Node, p: Path, modTime: int, title: string)
    requires p != [] && KindAt(n, Parent(p)) == Directory && KindAt(n, p) != Directory
    ensures KindAt(PutFile(n, p, modTime, title), p) == Regular(modTime, title)
    ensures DifferOnlyAt(n, PutFile(n, p, modTime, title), p)
    decreases p
  {
    var n' := PutFile(n, p, modTime, title);
    KindBelow(n, Parent(p) + [p[|p| - 1]]);
    if |p| == 1 {
      assert Parent(p) == [];
      PutEntryIsLocal(n, p[0], File(modTime, title), p);
    } else {
      assert Parent(p)[1..] == Parent(p[1..]) && Parent(p)[0] == p[0];
      KindBelow(n, Parent(p));
      KindBelow(n, p);
      var child := FindEntry(n.entries, p[0]).value;
      PutFileIsLocal(child, p[1..], modTime, title);
      PutEntryIsLocal(n, p[0], PutFile(child, p[1..], modTime, title), p);
    }
  }

  /** Replacing one entry of a directory by a node that differs only at the rest of the path. */
  lemma PutEntryIsLocal(n: Node, name: string, child': Node, p: Path)
    requires n.Dir? && p != [] && p[0] == name && KindAt(n, p) != Directory
    requires KindAt(child', p[1..]).Regular?
    requires forall q :: q != p[1..] ==>
      KindAt(child', q) == match FindEntry(n.entries, name) case None => Missing case Some(m) => KindAt(m, q)
    ensures var n' := Dir(n.modTime, SetEntry(n.entries, name, child'));
      KindAt(n', p) == KindAt(child', p[1..]) && DifferOnlyAt(n, n', p)
  {
    var n' := Dir(n.modTime, SetEntry(n.entries, name, child'));
    forall q: Path | q != [] ensures KindAt(n', q) == if q[0] == name then KindAt(child', q[1..]) else KindAt(n, q) {
      FindInSetEntry(n.entries, name, child', q[0]);
      KindBelow(n, q);
      KindBelow(n', q);
    }
    forall q | q != p ensures KindAt(n, q) == KindAt(n', q) {
      if q != [] {
        KindBelow(n, q);
        assert q == [q[0]] + q[1..] && p == [p[0]] + p[1..];
      }
    }
  }

  lemma {:induction false} SetEntryIsWellFormed(entries: seq<Entry>, name: string, node: Node)
    requires WellFormedEntries(entries) && name != ".." && WellFormed(node)
    ensures WellFormedEntries(SetEntry(entries, name, node))
  {
    if entries == [] {
      assert [Entry(name, node)][1..] == [];
    } else {
      var e, rest := entries[0], entries[1..];
      if e.name == name {
        assert ([Entry(name, node)] + rest)[1..] == rest;
      } else {
        SetEntryIsWellFormed(rest, name, node);
        FindInSetEntry(rest, name, node, e.name);
        assert ([e] + SetEntry(rest, name, node))[1..] == SetEntry(rest, name, node);
      }
    }
  }

  lemma {:induction false} PutFileIsWellFormed(n: Node, p: Path, modTime: int, title: string)
    requires WellFormed(n) && p != [] && Clean(p)
    ensures WellFormed(PutFile(n, p, modTime, title))
    decreases p
  {
    if n.Dir? {
      if |p| == 1 {
        SetEntryIsWellFormed(n.entries, p[0], File(modTime, title));
      } else {
        var child := FindEntry(n.entries, p[0]);
        if child.Some? {
          FoundEntryIsWellFormed(n.entries, p[0]);
          PutFileIsWellFormed(child.value, p[1..], modTime, title);
          SetEntryIsWellFormed(n.entries, p[0], PutFile(child.value, p[1..], modTime, title));
        }
      }
    }
  }
}
