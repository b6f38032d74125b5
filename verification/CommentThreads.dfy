/**
 * Which reply links can exist: thread creation, replies over HTTP, replies by the agent, and the
 * in-memory working map that tells the agent which comment it is answering.
 */
module CommentThreads {
  import opened Collections
  import opened Runs
  import opened Comments
  import opened ReplyTree
  import CommentOrder

  datatype Thread = Thread(id: string, status: string, comments: seq<Comment>)

  /** A sidecar file: one per project, document and worktree ("" is the main worktree). */
  datatype Location = Location(project: string, path: string, worktree: string)

  datatype Working = Working(startedAt: int, afterCommentId: string)

  type Sidecars = map<Location, seq<Thread>>

  // ---------------------------------------------------------------------------------------
  // Operations on sidecar files, as functions

  function Load(files: Sidecars, loc: Location): seq<Thread> {
    if loc in files then files[loc] else []
  }

  /** What `migrateInReplyTo` makes of one thread's comments. */
  function BackfillLinks(cs: seq<Comment>): seq<Comment> {
    seq(|cs|, i requires 0 <= i < |cs| => Backfilled(cs, i))
  }

  function Backfilled(cs: seq<Comment>, i: nat): Comment
    requires i < |cs|
  {
    if i > 0 && cs[i].inReplyTo == "" then cs[i].(inReplyTo := cs[i - 1].id) else cs[i]
  }

  function Migrate(threads: seq<Thread>): seq<Thread> {
    seq(|threads|, i requires 0 <= i < |threads| =>
      threads[i].(comments := BackfillLinks(threads[i].comments)))
  }

  /** The first thread with the given ID, as the linear searches of the store find it. */
  function IndexOf(threads: seq<Thread>, threadId: string): (i: nat)
    ensures i <= |threads|
    ensures i < |threads| ==> threads[i].id == threadId
    ensures forall j :: 0 <= j < i ==> threads[j].id != threadId
  {
    if threads == [] || threads[0].id == threadId then 0 else 1 + IndexOf(threads[1..], threadId)
  }

  /** `AddComment`'s default link: an unlinked reply answers the last comment. */
  function Linked(cs: seq<Comment>, c: Comment): Comment {
    if c.inReplyTo == "" && cs != [] then c.(inReplyTo := cs[|cs| - 1].id) else c
  }

  function Appended(threads: seq<Thread>, i: nat, c: Comment): seq<Thread>
    requires i < |threads|
  {
    var t := threads[i];
    threads[i := t.(comments := t.comments + [Linked(t.comments, c)])]
  }

  function AfterCreate(files: Sidecars, loc: Location, threadId: string, c: Comment): Sidecars {
    files[loc := Migrate(Load(files, loc) + [Thread(threadId, "open", [c])])]
  }

  /** No such thread: an error, and nothing is written. */
  function AfterAdd(files: Sidecars, loc: Location, threadId: string, c: Comment): Sidecars {
    var threads := Load(files, loc);
    var i := IndexOf(threads, threadId);
    if i < |threads| then files[loc := Migrate(Appended(threads, i, c))] else files
  }

  function AfterSetStatus(files: Sidecars, loc: Location, threadId: string, status: string): Sidecars {
    var threads := Load(files, loc);
    var i := IndexOf(threads, threadId);
    if i < |threads| then files[loc := Migrate(threads[i := threads[i].(status := status)])] else files
  }

  // ---------------------------------------------------------------------------------------
  // The store

  class Store {
    var files: Sidecars

    constructor ()
      ensures files == map[]
    {
      files := map[];
    }

    /** Writes the missing links into the loaded threads, in place, before they are saved. */
    static method MigrateInReplyTo(threads: array<Thread>)
      modifies threads
      ensures threads[..] == Migrate(old(threads[..]))
    {
      ghost var was := threads[..];
      var i := 0;
      while i < threads.Length
        invariant 0 <= i <= threads.Length
        invariant forall k :: 0 <= k < i ==> threads[k] == was[k].(comments := BackfillLinks(was[k].comments))
        invariant forall k :: i <= k < threads.Length ==> threads[k] == was[k]
      {
        var cs := threads[i].comments;
        var j := 1;
        while j < |cs|
          invariant |cs| == |was[i].comments|
          invariant 1 <= j
          invariant forall k :: 0 <= k < |cs| ==>
            cs[k] == if k < j then Backfilled(was[i].comments, k) else was[i].comments[k]
        {
          if cs[j].inReplyTo == "" {
            cs := cs[j := cs[j].(inReplyTo := cs[j - 1].id)];
          }
          j := j + 1;
        }
        assert cs == BackfillLinks(was[i].comments);
        threads[i] := threads[i].(comments := cs);
        i := i + 1;
      }
    }

    /** Back-fills links and replaces the sidecar. */
    method Save(loc: Location, threads: seq<Thread>)
      modifies this`files
      ensures files == old(files)[loc := Migrate(threads)]
    {
      var a := new Thread[|threads|](i requires 0 <= i < |threads| => threads[i]);
      assert a[..] == threads;
      MigrateInReplyTo(a);
      files := files[loc := a[..]];
    }

    method CreateThread(loc: Location, threadId: string, comment: Comment)
      modifies this`files
      ensures files == AfterCreate(old(files), loc, threadId, comment)
    {
      Save(loc, Load(files, loc) + [Thread(threadId, "open", [comment])]);
    }

    method AddComment(loc: Location, threadId: string, comment: Comment) returns (found: bool)
      modifies this`files
      ensures files == AfterAdd(old(files), loc, threadId, comment)
      ensures found <==> exists t :: t in Load(old(files), loc) && t.id == threadId
    {
      var threads := Load(files, loc);
      var i := 0;
      while i < |threads|
        invariant 0 <= i <= |threads|
        invariant forall j :: 0 <= j < i ==> threads[j].id != threadId
      {
        if threads[i].id == threadId {
          var c := comment;
          var cs := threads[i].comments;
          if c.inReplyTo == "" && |cs| > 0 {
            c := c.(inReplyTo := cs[|cs| - 1].id);
          }
          assert i == IndexOf(threads, threadId);
          Save(loc, threads[i := threads[i].(comments := cs + [c])]);
          return true;
        }
        i := i + 1;
      }
      return false;
    }

    method SetStatus(loc: Location, threadId: string, status: string) returns (found: bool)
      modifies this`files
      ensures files == AfterSetStatus(old(files), loc, threadId, status)
      ensures found <==> exists t :: t in Load(old(files), loc) && t.id == threadId
    {
      var threads := Load(files, loc);
      var i := 0;
      while i < |threads|
        invariant 0 <= i <= |threads|
        invariant forall j :: 0 <= j < i ==> threads[j].id != threadId
      {
        if threads[i].id == threadId {
          assert i == IndexOf(threads, threadId);
          Save(loc, threads[i := threads[i].(status := status)]);
          return true;
        }
        i := i + 1;
      }
      return false;
    }
  }

  // ---------------------------------------------------------------------------------------
  // Runs: every interleaving of the HTTP handlers and the agent's tool calls, at the
  // granularity of the store's locks

  /** An agent tool call that has loaded a thread and is about to mark it as being worked on. */
  datatype PendingRead = PendingRead(key: string, afterCommentId: string)

  /** A `penpal_reply` that has read the working map but not yet taken the store's lock. */
  datatype PendingReply = PendingReply(loc: Location, threadId: string, afterCommentId: string)

  datatype State = State(
    files: Sidecars,
    working: map<string, Working>,
    issued: set<string>,
    loads: map<nat, PendingRead>,
    replies: map<nat, PendingReply>)

  /** `text` carries author, role, body, timestamps; its `id` and `inReplyTo` are overwritten. */
  datatype Action =
    | Create(loc: Location, commentId: string, threadId: string, text: Comment)
    | HttpReply(loc: Location, threadId: string, commentId: string, text: Comment)
    | ReadThread(op: nat, loc: Location, threadId: string)
    | MarkWorking(op: nat, now: int)
    | ChooseLink(op: nat, loc: Location, threadId: string)
    | AgentReply(op: nat, commentId: string, text: Comment)
    | ForgetWorking(keys: set<string>)
    | Status(loc: Location, threadId: string, status: string)

  const INIT := State(map[], map[], {}, map[], map[])

  /** The key of the in-memory working map; note that it does not mention the worktree. */
  function WorkingKey(loc: Location, threadId: string): string {
    loc.project + ":" + loc.path + ":" + threadId
  }

  predicate WellFormedId(id: string) { |id| == 8 }

  predicate Fresh(s: State, id: string) { WellFormedId(id) && id !in s.issued }

  predicate Enabled(s: State, a: Action) {
    match a
    case Create(_, cid, tid, _) => Fresh(s, cid) && Fresh(s, tid) && cid != tid
    case HttpReply(_, _, cid, _) => Fresh(s, cid)
    case ReadThread(_, loc, tid) =>
      var threads := Load(s.files, loc);
      var i := IndexOf(threads, tid);
      i < |threads| && threads[i].comments != []
    case MarkWorking(op, _) => op in s.loads
    case ChooseLink(_, _, _) => true
    case AgentReply(op, cid, _) => op in s.replies && Fresh(s, cid)
    case ForgetWorking(_) => true
    case Status(_, _, _) => true
  }

  function Apply(s: State, a: Action): State
    requires Enabled(s, a)
  {
    match a
    case Create(loc, cid, tid, text) =>
      s.(files := AfterCreate(s.files, loc, tid, text.(id := cid, inReplyTo := "")),
         issued := s.issued + {cid, tid})
    case HttpReply(loc, tid, cid, text) =>
      s.(files := AfterAdd(s.files, loc, tid, text.(id := cid, inReplyTo := "")), issued := s.issued + {cid})
    case ReadThread(op, loc, tid) =>
      var t := Load(s.files, loc)[IndexOf(Load(s.files, loc), tid)];
      s.(loads := s.loads[op := PendingRead(WorkingKey(loc, tid), t.comments[|t.comments| - 1].id)])
    case MarkWorking(op, now) =>
      var r := s.loads[op];
      s.(working := s.working[r.key := Working(now, r.afterCommentId)])
    case ChooseLink(op, loc, tid) =>
      var key := WorkingKey(loc, tid);
      var after := if key in s.working then s.working[key].afterCommentId else "";
      s.(replies := s.replies[op := PendingReply(loc, tid, after)])
    case AgentReply(op, cid, text) =>
      var r := s.replies[op];
      s.(files := AfterAdd(s.files, r.loc, r.threadId, text.(id := cid, inReplyTo := r.afterCommentId)),
         issued := s.issued + {cid},
         replies := s.replies - {op})
    case ForgetWorking(keys) => s.(working := s.working - keys)
    case Status(loc, tid, status) => s.(files := AfterSetStatus(s.files, loc, tid, status))
  }

  function Step(s: State, a: Action): Option<State> {
    if Enabled(s, a) then Some(Apply(s, a)) else None
  }

  function Run(actions: seq<Action>): Option<State> {
    RunFrom(Step, INIT, actions)
  }

  ghost predicate Reachable(s: State) {
    exists actions :: Run(actions) == Some(s)
  }

  // ---------------------------------------------------------------------------------------
  // What every run keeps

  ghost predicate RepliesEarlier(cs: seq<Comment>, i: nat)
    requires i < |cs|
  {
    exists j :: 0 <= j < i && cs[j].id == cs[i].inReplyTo
  }

  /** Opened by an unlinked comment; every later comment answers a strictly earlier one. */
  ghost predicate EarlierLinks(cs: seq<Comment>) {
    && cs != []
    && cs[0].inReplyTo == ""
    && DistinctIds(cs)
    && (forall i :: 0 <= i < |cs| ==> cs[i].id != "")
    && (forall i :: 1 <= i < |cs| ==> RepliesEarlier(cs, i))
  }

  ghost predicate HasComment(t: Thread, id: string) {
    exists j :: 0 <= j < |t.comments| && t.comments[j].id == id
  }

  ghost predicate Holds(files: Sidecars, threadId: string, commentId: string) {
    exists loc, i :: loc in files && 0 <= i < |files[loc]| && files[loc][i].id == threadId &&
      HasComment(files[loc][i], commentId)
  }

  /** `key` ends in the ID of a thread that contains `commentId`. */
  ghost predicate KeyHolds(files: Sidecars, key: string, commentId: string) {
    exists prefix: string, tid :: key == prefix + tid && WellFormedId(tid) && Holds(files, tid, commentId)
  }

  ghost predicate ThreadsOk(files: Sidecars, issued: set<string>) {
    && (forall loc, i :: loc in files && 0 <= i < |files[loc]| ==> ThreadOk(files[loc][i], issued))
    && UniqueIds(files)
  }

  ghost predicate UniqueIds(files: Sidecars) {
    forall l, i, m, j ::
      l in files && 0 <= i < |files[l]| && m in files && 0 <= j < |files[m]| && files[l][i].id == files[m][j].id ==>
        l == m && i == j
  }

  ghost predicate ThreadOk(t: Thread, issued: set<string>) {
    && WellFormedId(t.id) && t.id in issued
    && EarlierLinks(t.comments)
    && (forall j :: 0 <= j < |t.comments| ==> t.comments[j].id in issued)
  }

  ghost predicate Inv(s: State) {
    && ThreadsOk(s.files, s.issued)
    && (forall k :: k in s.working ==> KeyHolds(s.files, k, s.working[k].afterCommentId))
    && (forall op :: op in s.loads ==> KeyHolds(s.files, s.loads[op].key, s.loads[op].afterCommentId))
    && (forall op :: op in s.replies ==> ReplyOk(s.files, s.replies[op]))
  }

  ghost predicate ReplyOk(files: Sidecars, r: PendingReply) {
    r.afterCommentId == "" || KeyHolds(files, WorkingKey(r.loc, r.threadId), r.afterCommentId)
  }

  /** `after` has every thread of `before`, in place, with at least its comments. */
  ghost predicate Extends(before: Sidecars, after: Sidecars) {
    forall loc, i :: loc in before && 0 <= i < |before[loc]| ==>
      loc in after && i < |after[loc]| && ThreadExtends(before[loc][i], after[loc][i])
  }

  ghost predicate ThreadExtends(t: Thread, u: Thread) {
    && t.id == u.id && |t.comments| <= |u.comments|
    && forall j :: 0 <= j < |t.comments| ==> u.comments[j] == t.comments[j]
  }

  /** Saving does not touch threads whose links are already in place. */
  lemma MigrationIsIdentity(threads: seq<Thread>)
    requires forall i :: 0 <= i < |threads| ==> EarlierLinks(threads[i].comments)
    ensures Migrate(threads) == threads
  {
    forall i | 0 <= i < |threads| ensures Migrate(threads)[i] == threads[i] {
      var cs := threads[i].comments;
      forall k | 0 <= k < |cs| ensures Backfilled(cs, k) == cs[k] {
        if k > 0 { assert RepliesEarlier(cs, k); }
      }
      assert BackfillLinks(cs) == cs;
    }
  }

  lemma ExtendsKeepsKey(before: Sidecars, after: Sidecars, key: string, id: string)
    requires Extends(before, after) && KeyHolds(before, key, id)
    ensures KeyHolds(after, key, id)
  {
    var prefix: string, tid :| key == prefix + tid && WellFormedId(tid) && Holds(before, tid, id);
    var loc, i :| loc in before && 0 <= i < |before[loc]| && before[loc][i].id == tid && HasComment(before[loc][i], id);
    var j :| 0 <= j < |before[loc][i].comments| && before[loc][i].comments[j].id == id;
    assert ThreadExtends(before[loc][i], after[loc][i]);
    assert HasComment(after[loc][i], id);
    assert Holds(after, tid, id);
  }

  lemma ExtendsKeepsPending(s: State, files: Sidecars)
    requires Inv(s) && Extends(s.files, files)
    ensures forall k :: k in s.working ==> KeyHolds(files, k, s.working[k].afterCommentId)
    ensures forall op :: op in s.loads ==> KeyHolds(files, s.loads[op].key, s.loads[op].afterCommentId)
    ensures forall op :: op in s.replies ==> ReplyOk(files, s.replies[op])
  {
    forall k | k in s.working ensures KeyHolds(files, k, s.working[k].afterCommentId) {
      ExtendsKeepsKey(s.files, files, k, s.working[k].afterCommentId);
    }
    forall op | op in s.loads ensures KeyHolds(files, s.loads[op].key, s.loads[op].afterCommentId) {
      ExtendsKeepsKey(s.files, files, s.loads[op].key, s.loads[op].afterCommentId);
    }
    forall op | op in s.replies ensures ReplyOk(files, s.replies[op]) {
      var r := s.replies[op];
      if r.afterCommentId != "" {
        ExtendsKeepsKey(s.files, files, WorkingKey(r.loc, r.threadId), r.afterCommentId);
      }
    }
  }

  lemma CreateKeepsThreads(files: Sidecars, issued: set<string>, loc: Location, tid: string, c: Comment)
    requires ThreadsOk(files, issued) && WellFormedId(tid) && WellFormedId(c.id) && c.id != tid
    requires tid !in issued && c.inReplyTo == ""
    ensures ThreadsOk(AfterCreate(files, loc, tid, c), issued + {c.id, tid})
    ensures Extends(files, AfterCreate(files, loc, tid, c))
  {
    var t := Thread(tid, "open", [c]);
    assert ThreadOk(t, issued + {c.id, tid});
    NewThreadIsSaved(files, issued, loc, t);
    AppendKeepsThreads(files, issued, issued + {c.id, tid}, loc, t);
  }

  lemma NewThreadIsSaved(files: Sidecars, issued: set<string>, loc: Location, t: Thread)
    requires ThreadsOk(files, issued) && EarlierLinks(t.comments)
    ensures Migrate(Load(files, loc) + [t]) == Load(files, loc) + [t]
  {
    var threads := Load(files, loc) + [t];
    forall i | 0 <= i < |threads| ensures EarlierLinks(threads[i].comments) {
      if i < |threads| - 1 { assert ThreadOk(files[loc][i], issued); }
    }
    MigrationIsIdentity(threads);
  }

  /** Adding a thread with a new ID. */
  lemma AppendKeepsThreads(files: Sidecars, issued: set<string>, issued': set<string>, loc: Location, t: Thread)
    requires ThreadsOk(files, issued) && issued <= issued' && t.id !in issued && ThreadOk(t, issued')
    ensures var files': Sidecars := files[loc := Load(files, loc) + [t]];
      ThreadsOk(files', issued') && Extends(files, files')
  {
    var files': Sidecars := files[loc := Load(files, loc) + [t]];
    forall l, i | l in files' && 0 <= i < |files'[l]|
      ensures ThreadOk(files'[l][i], issued')
      ensures if l == loc && i == |files'[loc]| - 1 then files'[l][i] == t
              else l in files && i < |files[l]| && files'[l][i] == files[l][i] && files'[l][i].id != t.id
    {
      if !(l == loc && i == |files'[loc]| - 1) { assert ThreadOk(files[l][i], issued); }
    }
  }

  /** Appending a reply whose link, if any, names a comment of the thread. */
  lemma AppendKeepsLinks(cs: seq<Comment>, c: Comment)
    requires EarlierLinks(cs) && c.id != ""
    requires forall j :: 0 <= j < |cs| ==> cs[j].id != c.id
    requires c.inReplyTo == "" || exists j :: 0 <= j < |cs| && cs[j].id == c.inReplyTo
    ensures EarlierLinks(cs + [Linked(cs, c)])
  {
    var all := cs + [Linked(cs, c)];
    var n := |cs|;
    var link := if c.inReplyTo == "" then n - 1 else var j :| 0 <= j < n && cs[j].id == c.inReplyTo; j;
    assert all[link].id == all[n].inReplyTo;
    forall i | 1 <= i < n ensures RepliesEarlier(all, i) {
      assert RepliesEarlier(cs, i);
      var j :| 0 <= j < i && cs[j].id == cs[i].inReplyTo;
      assert all[j].id == all[i].inReplyTo;
    }
  }

  /** Replacing one thread by an extension of it, then saving. */
  lemma ReplaceKeepsThreads(files: Sidecars, issued: set<string>, issued': set<string>, loc: Location,
                            i: nat, t: Thread)
    requires ThreadsOk(files, issued) && issued <= issued'
    requires loc in files && i < |files[loc]|
    requires ThreadOk(t, issued') && ThreadExtends(files[loc][i], t)
    ensures var files' := files[loc := Migrate(files[loc][i := t])];
      ThreadsOk(files', issued') && Extends(files, files')
  {
    var threads := files[loc][i := t];
    forall k | 0 <= k < |threads| ensures ThreadOk(threads[k], issued') && threads[k].id == files[loc][k].id {
      assert ThreadOk(files[loc][k], issued);
    }
    MigrationIsIdentity(threads);
    IdsKeptUnique(files, loc, threads);
    forall l, k | l in files && 0 <= k < |files[l]| && l != loc ensures ThreadOk(files[l][k], issued') {
      assert ThreadOk(files[l][k], issued);
    }
  }

  lemma IdsKeptUnique(files: Sidecars, loc: Location, threads: seq<Thread>)
    requires loc in files && |threads| == |files[loc]|
    requires forall k :: 0 <= k < |threads| ==> threads[k].id == files[loc][k].id
    requires UniqueIds(files)
    ensures UniqueIds(files[loc := threads])
  {
    var files': Sidecars := files[loc := threads];
    forall l, i, m, j | l in files' && 0 <= i < |files'[l]| && m in files' && 0 <= j < |files'[m]|
      && files'[l][i].id == files'[m][j].id
      ensures l == m && i == j
    {
      assert files'[l][i].id == files[l][i].id && files'[m][j].id == files[m][j].id;
    }
  }

  lemma AddKeepsThreads(files: Sidecars, issued: set<string>, loc: Location, tid: string, c: Comment)
    requires ThreadsOk(files, issued) && WellFormedId(c.id) && c.id !in issued
    requires c.inReplyTo == "" ||
      (forall i :: 0 <= i < |Load(files, loc)| && Load(files, loc)[i].id == tid ==>
        HasComment(Load(files, loc)[i], c.inReplyTo))
    ensures ThreadsOk(AfterAdd(files, loc, tid, c), issued + {c.id})
    ensures Extends(files, AfterAdd(files, loc, tid, c))
  {
    var threads := Load(files, loc);
    var i := IndexOf(threads, tid);
    if i < |threads| {
      var t := threads[i];
      assert ThreadOk(files[loc][i], issued);
      AppendKeepsLinks(t.comments, c);
      var t' := t.(comments := t.comments + [Linked(t.comments, c)]);
      ReplaceKeepsThreads(files, issued, issued + {c.id}, loc, i, t');
    } else {
      assert forall l, k :: l in files && 0 <= k < |files[l]| ==> ThreadOk(files[l][k], issued);
    }
  }

  lemma StatusKeepsThreads(files: Sidecars, issued: set<string>, loc: Location, tid: string, status: string)
    requires ThreadsOk(files, issued)
    ensures ThreadsOk(AfterSetStatus(files, loc, tid, status), issued)
    ensures Extends(files, AfterSetStatus(files, loc, tid, status))
  {
    var threads := Load(files, loc);
    var i := IndexOf(threads, tid);
    if i < |threads| {
      assert ThreadOk(files[loc][i], issued);
      ReplaceKeepsThreads(files, issued, issued, loc, i, threads[i].(status := status));
    }
  }

  /** The link chosen from the working map names a comment of the thread it is finally used on. */
  lemma ChosenLinkIsInThread(files: Sidecars, issued: set<string>, r: PendingReply, i: nat)
    requires ThreadsOk(files, issued) && ReplyOk(files, r) && r.afterCommentId != ""
    requires i < |Load(files, r.loc)| && Load(files, r.loc)[i].id == r.threadId
    ensures HasComment(Load(files, r.loc)[i], r.afterCommentId)
  {
    var key := WorkingKey(r.loc, r.threadId);
    var prefix: string, tid :| key == prefix + tid && WellFormedId(tid) && Holds(files, tid, r.afterCommentId);
    assert ThreadOk(files[r.loc][i], issued);
    assert key[|key| - 8..] == tid;
    assert key[|key| - 8..] == r.threadId;
  }

  lemma AgentReplyKeepsInv(s: State, op: nat, cid: string, text: Comment)
    requires Inv(s) && op in s.replies && Fresh(s, cid)
    ensures Inv(Apply(s, AgentReply(op, cid, text))) && Extends(s.files, Apply(s, AgentReply(op, cid, text)).files)
  {
    var r := s.replies[op];
    assert ReplyOk(s.files, r);
    if r.afterCommentId != "" {
      forall i | 0 <= i < |Load(s.files, r.loc)| && Load(s.files, r.loc)[i].id == r.threadId
        ensures HasComment(Load(s.files, r.loc)[i], r.afterCommentId)
      {
        ChosenLinkIsInThread(s.files, s.issued, r, i);
      }
    }
    AddKeepsThreads(s.files, s.issued, r.loc, r.threadId, text.(id := cid, inReplyTo := r.afterCommentId));
    ExtendsKeepsPending(s, Apply(s, AgentReply(op, cid, text)).files);
  }

  lemma KeyOfComment(files: Sidecars, loc: Location, i: nat, j: nat)
    requires loc in files && i < |files[loc]| && j < |files[loc][i].comments| && WellFormedId(files[loc][i].id)
    ensures KeyHolds(files, WorkingKey(loc, files[loc][i].id), files[loc][i].comments[j].id)
  {
    var tid, cid := files[loc][i].id, files[loc][i].comments[j].id;
    assert HasComment(files[loc][i], cid);
    assert Holds(files, tid, cid);
    assert WorkingKey(loc, tid) == (loc.project + ":" + loc.path + ":") + tid;
  }

  lemma ReadIsHeld(files: Sidecars, issued: set<string>, loc: Location, i: nat)
    requires ThreadsOk(files, issued) && i < |Load(files, loc)| && Load(files, loc)[i].comments != []
    ensures var t := Load(files, loc)[i];
      KeyHolds(files, WorkingKey(loc, t.id), t.comments[|t.comments| - 1].id)
  {
    assert ThreadOk(files[loc][i], issued);
    KeyOfComment(files, loc, i, |files[loc][i].comments| - 1);
  }

  /** Remembering the last comment of a thread that has been read. */
  lemma ReadKeepsInv(s: State, op: nat, loc: Location, tid: string)
    requires Inv(s) && Enabled(s, ReadThread(op, loc, tid))
    ensures Inv(Apply(s, ReadThread(op, loc, tid)))
  {
    var i := IndexOf(Load(s.files, loc), tid);
    var t := Load(s.files, loc)[i];
    ReadIsHeld(s.files, s.issued, loc, i);
    NotedReadKeepsInv(s, op, PendingRead(WorkingKey(loc, tid), t.comments[|t.comments| - 1].id));
  }

  lemma NotedReadKeepsInv(s: State, op: nat, read: PendingRead)
    requires Inv(s) && KeyHolds(s.files, read.key, read.afterCommentId)
    ensures Inv(s.(loads := s.loads[op := read]))
  {
  }

  lemma CreateKeepsInv(s: State, loc: Location, cid: string, tid: string, text: Comment)
    requires Inv(s) && Enabled(s, Create(loc, cid, tid, text))
    ensures Inv(Apply(s, Create(loc, cid, tid, text))) && Extends(s.files, Apply(s, Create(loc, cid, tid, text)).files)
  {
    CreateKeepsThreads(s.files, s.issued, loc, tid, text.(id := cid, inReplyTo := ""));
    ExtendsKeepsPending(s, Apply(s, Create(loc, cid, tid, text)).files);
  }

  lemma HttpReplyKeepsInv(s: State, loc: Location, tid: string, cid: string, text: Comment)
    requires Inv(s) && Enabled(s, HttpReply(loc, tid, cid, text))
    ensures Inv(Apply(s, HttpReply(loc, tid, cid, text)))
    ensures Extends(s.files, Apply(s, HttpReply(loc, tid, cid, text)).files)
  {
    AddKeepsThreads(s.files, s.issued, loc, tid, text.(id := cid, inReplyTo := ""));
    ExtendsKeepsPending(s, Apply(s, HttpReply(loc, tid, cid, text)).files);
  }

  lemma StatusKeepsInv(s: State, loc: Location, tid: string, status: string)
    requires Inv(s)
    ensures Inv(Apply(s, Status(loc, tid, status))) && Extends(s.files, Apply(s, Status(loc, tid, status)).files)
  {
    StatusKeepsThreads(s.files, s.issued, loc, tid, status);
    ExtendsKeepsPending(s, Apply(s, Status(loc, tid, status)).files);
  }

  lemma MarkKeepsInv(s: State, op: nat, now: int)
    requires Inv(s) && op in s.loads
    ensures Inv(Apply(s, MarkWorking(op, now)))
  {
    assert KeyHolds(s.files, s.loads[op].key, s.loads[op].afterCommentId);
  }

  lemma ChoiceKeepsInv(s: State, op: nat, loc: Location, tid: string)
    requires Inv(s)
    ensures Inv(Apply(s, ChooseLink(op, loc, tid)))
  {
    var key := WorkingKey(loc, tid);
    assert key in s.working ==> KeyHolds(s.files, key, s.working[key].afterCommentId);
  }

  lemma StepKeepsInv(s: State, a: Action)
    requires Inv(s) && Enabled(s, a)
    ensures Inv(Apply(s, a)) && Extends(s.files, Apply(s, a).files)
  {
    match a
    case Create(loc, cid, tid, text) => CreateKeepsInv(s, loc, cid, tid, text);
    case HttpReply(loc, tid, cid, text) => HttpReplyKeepsInv(s, loc, tid, cid, text);
    case ReadThread(op, loc, tid) => ReadKeepsInv(s, op, loc, tid);
    case MarkWorking(op, now) => MarkKeepsInv(s, op, now);
    case ChooseLink(op, loc, tid) => ChoiceKeepsInv(s, op, loc, tid);
    case AgentReply(op, cid, text) => AgentReplyKeepsInv(s, op, cid, text);
    case ForgetWorking(keys) => assert Apply(s, a).working.Keys == s.working.Keys - keys;
    case Status(loc, tid, status) => StatusKeepsInv(s, loc, tid, status);
  }

  lemma RunKeepsInv(actions: seq<Action>)
    requires Run(actions).Some?
    ensures Inv(Run(actions).value)
  {
    forall s, a | Inv(s) && Step(s, a).Some? ensures Inv(Step(s, a).value) {
      StepKeepsInv(s, a);
    }
    RunKeeps(Step, Inv, INIT, actions);
  }

  /** In every thread of every run, each comment after the first answers a strictly earlier one. */
  lemma LinksPointBack(s: State, loc: Location, i: nat)
    requires Reachable(s) && loc in s.files && i < |s.files[loc]|
    ensures EarlierLinks(s.files[loc][i].comments)
  {
    var actions :| Run(actions) == Some(s);
    RunKeepsInv(actions);
    assert ThreadOk(s.files[loc][i], s.issued);
  }

  /** Every entry of the working map names a comment of the thread its key belongs to. */
  lemma WorkingEntriesHold(s: State, key: string)
    requires Reachable(s) && key in s.working
    ensures KeyHolds(s.files, key, s.working[key].afterCommentId)
  {
    var actions :| Run(actions) == Some(s);
    RunKeepsInv(actions);
  }

  // ---------------------------------------------------------------------------------------
  // What the working map is for: an agent's reply answers what the agent has read

  /** What `op` has read of the thread, and that only stale reads of it are pending besides. */
  ghost predicate ReadAfter(s: State, op: nat, key: string, id: string, stale: set<nat>) {
    && op in s.loads && s.loads[op] == PendingRead(key, id) && op !in stale
    && forall o :: o in s.loads && s.loads[o].key == key ==> o == op || o in stale
  }

  /** The thread is marked as being worked on after comment `id`, and only stale reads say otherwise. */
  ghost predicate MarkedAfter(s: State, key: string, id: string, stale: set<nat>) {
    && key in s.working && s.working[key].afterCommentId == id
    && forall o :: o in s.loads && s.loads[o].key == key ==> s.loads[o].afterCommentId == id || o in stale
  }

  /** The step does not read the thread again, mark it by a stale read, or forget that it is being worked on. */
  predicate LeavesMark(a: Action, key: string, stale: set<nat>) {
    match a
    case ReadThread(_, loc, tid) => WorkingKey(loc, tid) != key
    case MarkWorking(o, _) => o !in stale
    case ForgetWorking(keys) => key !in keys
    case _ => true
  }

  predicate LeavesRead(a: Action, op: nat) {
    match a
    case ReadThread(o, _, _) => o != op
    case _ => true
  }

  predicate LeavesReply(a: Action, op: nat) {
    match a
    case ChooseLink(o, _, _) => o != op
    case AgentReply(o, _, _) => o != op
    case _ => true
  }

  lemma {:induction false} ReadStays(s: State, actions: seq<Action>, op: nat, key: string, id: string, stale: set<nat>)
    requires ReadAfter(s, op, key, id, stale) && RunFrom(Step, s, actions).Some?
    requires forall i :: 0 <= i < |actions| ==> LeavesMark(actions[i], key, stale) && LeavesRead(actions[i], op)
    ensures ReadAfter(RunFrom(Step, s, actions).value, op, key, id, stale)
  {
    if actions == [] {
    } else {
      var a := actions[|actions| - 1];
      ReadStays(s, actions[..|actions| - 1], op, key, id, stale);
      assert LeavesMark(a, key, stale) && LeavesRead(a, op);
    }
  }

  lemma {:induction false} MarkStays(s: State, actions: seq<Action>, key: string, id: string, stale: set<nat>)
    requires MarkedAfter(s, key, id, stale) && RunFrom(Step, s, actions).Some?
    requires forall i :: 0 <= i < |actions| ==> LeavesMark(actions[i], key, stale)
    ensures MarkedAfter(RunFrom(Step, s, actions).value, key, id, stale)
  {
    if actions == [] {
    } else {
      var a := actions[|actions| - 1];
      MarkStays(s, actions[..|actions| - 1], key, id, stale);
      assert LeavesMark(a, key, stale);
    }
  }

  lemma {:induction false} ReplyStays(s: State, actions: seq<Action>, op: nat)
    requires op in s.replies && RunFrom(Step, s, actions).Some?
    requires forall i :: 0 <= i < |actions| ==> LeavesReply(actions[i], op)
    ensures op in RunFrom(Step, s, actions).value.replies
    ensures RunFrom(Step, s, actions).value.replies[op] == s.replies[op]
  {
    if actions == [] {
    } else {
      var a := actions[|actions| - 1];
      ReplyStays(s, actions[..|actions| - 1], op);
      assert LeavesReply(a, op);
    }
  }

  lemma ExtendsTransitive(a: Sidecars, b: Sidecars, c: Sidecars)
    requires Extends(a, b) && Extends(b, c)
    ensures Extends(a, c)
  {
    forall loc, i | loc in a && 0 <= i < |a[loc]|
      ensures loc in c && i < |c[loc]| && ThreadExtends(a[loc][i], c[loc][i])
    {
      assert ThreadExtends(a[loc][i], b[loc][i]) && ThreadExtends(b[loc][i], c[loc][i]);
    }
  }

  /** Threads never vanish, nor do their comments. */
  lemma {:induction false} ThreadsStay(s: State, actions: seq<Action>)
    requires Inv(s) && RunFrom(Step, s, actions).Some?
    ensures Inv(RunFrom(Step, s, actions).value) && Extends(s.files, RunFrom(Step, s, actions).value.files)
  {
    if actions == [] {
    } else {
      var before := RunFrom(Step, s, actions[..|actions| - 1]).value;
      ThreadsStay(s, actions[..|actions| - 1]);
      StepKeepsInv(before, actions[|actions| - 1]);
      ExtendsTransitive(s.files, before.files, RunFrom(Step, s, actions).value.files);
    }
  }

  lemma SamePlace(before: Sidecars, after: Sidecars, loc: Location, tid: string)
    requires Extends(before, after) && IndexOf(Load(before, loc), tid) < |Load(before, loc)|
    ensures IndexOf(Load(after, loc), tid) == IndexOf(Load(before, loc), tid) < |Load(after, loc)|
  {
    var i := IndexOf(Load(before, loc), tid);
    forall j | 0 <= j <= i ensures j < |after[loc]| && after[loc][j].id == before[loc][j].id {
      assert ThreadExtends(before[loc][j], after[loc][j]);
    }
  }

  /** A linked reply is stored at the end of its thread with the link it came with. */
  lemma StoredWithItsLink(files: Sidecars, loc: Location, tid: string, c: Comment)
    requires c.inReplyTo != ""
    ensures var threads, i := Load(files, loc), IndexOf(Load(files, loc), tid);
      i < |threads| ==>
        && loc in AfterAdd(files, loc, tid, c) && i < |AfterAdd(files, loc, tid, c)[loc]|
        && EndsWith(AfterAdd(files, loc, tid, c)[loc][i], c)
  {
    var threads, i := Load(files, loc), IndexOf(Load(files, loc), tid);
    if i < |threads| {
      var cs := threads[i].comments + [c];
      assert Appended(threads, i, c)[i].comments == cs;
      assert BackfillLinks(cs)[|cs| - 1] == c;
    }
  }

  ghost predicate EndsWith(t: Thread, c: Comment) {
    t.comments != [] && t.comments[|t.comments| - 1] == c
  }

  /** The steps of one read and the reply to it, and what others do meanwhile. */
  datatype Exchange = Exchange(
    loc: Location,
    threadId: string,
    read: nat,
    marking: seq<Action>,
    now: int,
    working: seq<Action>,
    reply: nat,
    writing: seq<Action>,
    commentId: string,
    text: Comment)
  {
    function UntilMarked(): seq<Action> {
      [ReadThread(read, loc, threadId)] + marking + [MarkWorking(read, now)]
    }

    function FromChoice(): seq<Action> {
      [ChooseLink(reply, loc, threadId)] + writing + [AgentReply(reply, commentId, text)]
    }

    function Actions(): seq<Action> {
      UntilMarked() + working + FromChoice()
    }

    /** Nobody reads the thread again, marks it by a read from before, or forgets it, until the link is chosen. */
    ghost predicate Undisturbed(stale: set<nat>) {
      var key := WorkingKey(loc, threadId);
      && (forall i :: 0 <= i < |marking| ==> LeavesMark(marking[i], key, stale) && LeavesRead(marking[i], read))
      && (forall i :: 0 <= i < |working| ==> LeavesMark(working[i], key, stale))
      && (forall i :: 0 <= i < |writing| ==> LeavesReply(writing[i], reply))
    }
  }

  /** The reads of a thread that are pending, other than `read`. */
  function StaleReads(s: State, key: string, read: nat): set<nat> {
    set o | o in s.loads && s.loads[o].key == key && o != read
  }

  /** The comment that is last in the thread when it is read. */
  function LastRead(s: State, loc: Location, tid: string): string
    requires Enabled(s, ReadThread(0, loc, tid))
  {
    var cs := Load(s.files, loc)[IndexOf(Load(s.files, loc), tid)].comments;
    cs[|cs| - 1].id
  }

  lemma ReadIsPending(s: State, op: nat, loc: Location, tid: string)
    requires Enabled(s, ReadThread(op, loc, tid))
    ensures var key := WorkingKey(loc, tid);
      ReadAfter(Apply(s, ReadThread(op, loc, tid)), op, key, LastRead(s, loc, tid), StaleReads(s, key, op))
  {
  }

  lemma PendingIsMarked(s: State, op: nat, now: int, key: string, id: string, stale: set<nat>)
    requires ReadAfter(s, op, key, id, stale)
    ensures Enabled(s, MarkWorking(op, now)) && MarkedAfter(Apply(s, MarkWorking(op, now)), key, id, stale)
  {
  }

  lemma ReadingMarks(s: State, x: Exchange)
    requires RunFrom(Step, s, x.UntilMarked()).Some?
    requires x.Undisturbed(StaleReads(s, WorkingKey(x.loc, x.threadId), x.read))
    ensures Enabled(s, ReadThread(x.read, x.loc, x.threadId))
    ensures var key := WorkingKey(x.loc, x.threadId);
      MarkedAfter(RunFrom(Step, s, x.UntilMarked()).value, key, LastRead(s, x.loc, x.threadId),
                  StaleReads(s, key, x.read))
  {
    var a, key := ReadThread(x.read, x.loc, x.threadId), WorkingKey(x.loc, x.threadId);
    var stale := StaleReads(s, key, x.read);
    RunSplit(Step, s, [a] + x.marking, [MarkWorking(x.read, x.now)]);
    RunExtends(Step, s, [a] + x.marking, MarkWorking(x.read, x.now));
    RunStarts(Step, s, a, x.marking);
    var id := LastRead(s, x.loc, x.threadId);
    ReadIsPending(s, x.read, x.loc, x.threadId);
    ReadStays(Apply(s, a), x.marking, x.read, key, id, stale);
    PendingIsMarked(RunFrom(Step, Apply(s, a), x.marking).value, x.read, x.now, key, id, stale);
  }

  /** The thread at `loc` has the linked reply at its end, in its old place. */
  ghost predicate Replied(before: Sidecars, after: Sidecars, x: Exchange, id: string) {
    var i := IndexOf(Load(before, x.loc), x.threadId);
    && x.loc in after && i < |after[x.loc]|
    && EndsWith(after[x.loc][i], x.text.(id := x.commentId, inReplyTo := id))
  }

  lemma PendingReplyIsStored(s: State, x: Exchange, id: string)
    requires Enabled(s, AgentReply(x.reply, x.commentId, x.text)) && id != ""
    requires s.replies[x.reply] == PendingReply(x.loc, x.threadId, id)
    requires IndexOf(Load(s.files, x.loc), x.threadId) < |Load(s.files, x.loc)|
    ensures Replied(s.files, Apply(s, AgentReply(x.reply, x.commentId, x.text)).files, x, id)
  {
    StoredWithItsLink(s.files, x.loc, x.threadId, x.text.(id := x.commentId, inReplyTo := id));
  }

  lemma ChosenReplyIsStored(s: State, x: Exchange, id: string)
    requires Inv(s) && x.reply in s.replies && s.replies[x.reply] == PendingReply(x.loc, x.threadId, id) && id != ""
    requires IndexOf(Load(s.files, x.loc), x.threadId) < |Load(s.files, x.loc)|
    requires forall i :: 0 <= i < |x.writing| ==> LeavesReply(x.writing[i], x.reply)
    requires RunFrom(Step, s, x.writing + [AgentReply(x.reply, x.commentId, x.text)]).Some?
    ensures var end := RunFrom(Step, s, x.writing + [AgentReply(x.reply, x.commentId, x.text)]).value;
      Replied(s.files, end.files, x, id)
  {
    RunSplit(Step, s, x.writing, [AgentReply(x.reply, x.commentId, x.text)]);
    var u := RunFrom(Step, s, x.writing).value;
    RunExtends(Step, s, x.writing, AgentReply(x.reply, x.commentId, x.text));
    ReplyStays(s, x.writing, x.reply);
    ThreadsStay(s, x.writing);
    SamePlace(s.files, u.files, x.loc, x.threadId);
    PendingReplyIsStored(u, x, id);
  }

  lemma ReplyUsesMark(s: State, x: Exchange, id: string, stale: set<nat>)
    requires Inv(s) && MarkedAfter(s, WorkingKey(x.loc, x.threadId), id, stale) && id != ""
    requires IndexOf(Load(s.files, x.loc), x.threadId) < |Load(s.files, x.loc)|
    requires forall i :: 0 <= i < |x.writing| ==> LeavesReply(x.writing[i], x.reply)
    requires RunFrom(Step, s, x.FromChoice()).Some?
    ensures Replied(s.files, RunFrom(Step, s, x.FromChoice()).value.files, x, id)
  {
    var a, rest := ChooseLink(x.reply, x.loc, x.threadId), x.writing + [AgentReply(x.reply, x.commentId, x.text)];
    assert x.FromChoice() == [a] + rest;
    RunStarts(Step, s, a, rest);
    StepKeepsInv(s, a);
    ChosenReplyIsStored(Apply(s, a), x, id);
  }

  /**
   * Whatever others do after the agent has read a thread, replying to it included, the agent's
   * reply ends up last in that thread and answers the comment that was last when the agent read
   * it, as long as nobody reads the thread again or forgets that it is being worked on.
   */
  lemma ReplyAnswersWhatWasRead(s: State, x: Exchange)
    requires Reachable(s) && RunFrom(Step, s, x.Actions()).Some?
    requires x.Undisturbed(StaleReads(s, WorkingKey(x.loc, x.threadId), x.read))
    ensures Enabled(s, ReadThread(x.read, x.loc, x.threadId))
    ensures var i := IndexOf(Load(s.files, x.loc), x.threadId);
      var after := RunFrom(Step, s, x.Actions()).value.files;
      Replied(s.files, after, x, LastRead(s, x.loc, x.threadId)) && after[x.loc][i].id == x.threadId
  {
    var key, stale := WorkingKey(x.loc, x.threadId), StaleReads(s, WorkingKey(x.loc, x.threadId), x.read);
    ReachableKeepsInv(s);
    RunSplit(Step, s, x.UntilMarked() + x.working, x.FromChoice());
    RunSplit(Step, s, x.UntilMarked(), x.working);
    ReadingMarks(s, x);
    var t := Load(s.files, x.loc)[IndexOf(Load(s.files, x.loc), x.threadId)];
    var id := LastRead(s, x.loc, x.threadId);
    assert id != "" by { assert ThreadOk(t, s.issued); }
    var marked := RunFrom(Step, s, x.UntilMarked()).value;
    MarkStays(marked, x.working, key, id, stale);
    var ready := RunFrom(Step, s, x.UntilMarked() + x.working).value;
    ThreadsStay(s, x.UntilMarked() + x.working);
    SamePlace(s.files, ready.files, x.loc, x.threadId);
    ReplyUsesMark(ready, x, id, stale);
    ThreadsStay(s, x.Actions());
    SamePlace(s.files, RunFrom(Step, s, x.Actions()).value.files, x.loc, x.threadId);
  }

  lemma ReachableKeepsInv(s: State)
    requires Reachable(s)
    ensures Inv(s)
  {
    var actions :| Run(actions) == Some(s);
    RunKeepsInv(actions);
  }

  // ---------------------------------------------------------------------------------------
  // What that means for the page

  lemma {:induction false} BackLinksGround(cs: seq<Comment>, i: nat)
    requires EarlierLinks(cs) && i < |cs|
    ensures Grounded(cs, cs[i])
    ensures ParentOf(cs, cs[i]) == None <==> i == 0
    decreases i
  {
    if i == 0 {
      assert AtDepth(cs, cs[0], 0);
    } else {
      assert RepliesEarlier(cs, i);
      var j :| 0 <= j < i && cs[j].id == cs[i].inReplyTo;
      assert cs[j] in cs;
      SameIdSameComment(cs, cs[j], ParentOf(cs, cs[i]).value);
      BackLinksGround(cs, j);
      var d: nat :| AtDepth(cs, cs[j], d);
      assert AtDepth(cs, cs[i], d + 1);
    }
  }

  /** With one root, a tree order starts with it. */
  lemma TreeOrderStartsAtRoot(cs: seq<Comment>, r: seq<Comment>)
    requires EarlierLinks(cs) && CommentOrder.TreeOrder(cs, r)
    ensures r != [] && r[0] == cs[0]
  {
    BackLinksGround(cs, 0);
    assert cs[0] in r;
    var i: nat :| i < |r| && r[i] == cs[0];
    var c := r[0];
    assert c in r;
    var d: nat :| AtDepth(cs, c, d);
    var root := Ancestor(cs, c, d).value;
    CommentOrder.AncestorInThread(cs, c, d);
    var k: nat :| k < |cs| && cs[k] == root;
    BackLinksGround(cs, k);
    assert Under(cs, r[i], c);
    assert CommentOrder.SubtreeContiguousAt(cs, r, i);
  }

  /** Displaying a reachable thread shows all of it, opening comment first. */
  lemma DisplayIsPermutation(s: State, loc: Location, i: nat, r: seq<Comment>)
    requires Reachable(s) && loc in s.files && i < |s.files[loc]|
    requires var cs := s.files[loc][i].comments;
      if |cs| <= 1 then r == cs else CommentOrder.TreeOrder(cs, r)
    ensures multiset(r) == multiset(s.files[loc][i].comments)
    ensures r != [] && r[0] == s.files[loc][i].comments[0]
  {
    var cs := s.files[loc][i].comments;
    LinksPointBack(s, loc, i);
    if |cs| > 1 {
      forall c | c in cs ensures Grounded(cs, c) {
        var k: nat :| k < |cs| && cs[k] == c;
        BackLinksGround(cs, k);
      }
      CommentOrder.NothingLostIffAllGrounded(cs, r);
      TreeOrderStartsAtRoot(cs, r);
    }
  }
}
