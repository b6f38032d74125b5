/**
 * Session resumption in crates/acp-client/src/driver.rs: replayed notifications are matched
 * against the roles of the stored messages, to find out when the replay is over.
 */
module Notifications {
  import opened Collections

  /** The parts of a session notification that the handler looks at. */
  datatype Update =
    | AgentText(text: string)
    | AgentOther                    // an agent message chunk that is not text
    | UserText(text: string)
    | UserOther
    | AgentThought
    | ToolCall(id: string, title: string, rawInput: Option<string>)
    | ToolCallUpdate(id: string, newTitle: Option<string>, newInput: Option<string>, content: Option<ToolContent>)
    | SessionInfo(info: string)
    | ConfigOptions(options: string)
    | OtherUpdate

  /** The content of a tool call update, with the preview that is extracted from it, if any. */
  datatype ToolContent = ToolContent(preview: Option<string>)

  function ToolCallId(u: Update): Option<string> {
    match u
    case ToolCall(id, _, _) => Some(id)
    case ToolCallUpdate(id, _, _, _) => Some(id)
    case _ => None
  }
}

/** What a replay says, independently of how it is tracked. */
module ReplaySegments {
  import opened Collections
  import opened Notifications

  /** A piece of streamed text, or a tool message that stands for itself. */
  datatype Item = Text(role: string, text: string) | Tool(role: string)

  function ItemOf(u: Update): Option<Item> {
    match u
    case AgentText(t) => Some(Text("assistant", t))
    case UserText(t) => Some(Text("user", t))
    case ToolCall(_, _, _) => Some(Tool("tool_call"))
    case ToolCallUpdate(_, _, _, content) => if content.Some? then Some(Tool("tool_result")) else None
    case _ => None
  }

  function Items(us: seq<Update>): seq<Item> {
    if us == [] then [] else
      Items(us[..|us| - 1]) + match ItemOf(us[|us| - 1]) case None => [] case Some(i) => [i]
  }

  /** How many leading items are text of the given role. */
  function RunLength(items: seq<Item>, role: string): (n: nat)
    ensures n <= |items|
  {
    if items != [] && items[0].Text? && items[0].role == role then 1 + RunLength(items[1..], role) else 0
  }

  function JoinedText(items: seq<Item>): string {
    if items == [] then "" else (if items[0].Text? then items[0].text else "") + JoinedText(items[1..])
  }

  /**
   * The roles of the segments that are over: a tool message is one; a maximal run of text of one
   * role is one if something follows it and it is not empty.
   */
  function Closed(items: seq<Item>): seq<string>
    decreases |items|
  {
    if items == [] then []
    else if items[0].Tool? then [items[0].role] + Closed(items[1..])
    else
      var n := RunLength(items, items[0].role);
      if n == |items| then []
      else (if JoinedText(items[..n]) != "" then [items[0].role] else []) + Closed(items[n..])
  }

  /** The text run at the end, which more text may still extend. */
  function Open(items: seq<Item>): Option<Item>
    decreases |items|
  {
    if items == [] then None
    else if items[0].Tool? then Open(items[1..])
    else
      var n := RunLength(items, items[0].role);
      if n == |items| then Some(Text(items[0].role, JoinedText(items))) else Open(items[n..])
  }

  function CloseOpen(items: seq<Item>): seq<string> {
    match Open(items)
    case Some(Text(role, text)) => if text != "" then [role] else []
    case _ => []
  }

  /** `a` can be obtained from `b` by leaving elements out. */
  ghost predicate Subsequence(a: seq<string>, b: seq<string>) {
    if a == [] then true
    else if b == [] then false
    else (a[|a| - 1] == b[|b| - 1] && Subsequence(a[..|a| - 1], b[..|b| - 1])) || Subsequence(a, b[..|b| - 1])
  }

  // ---------------------------------------------------------------------------------------

  lemma {:induction false} RunLengthAppend(items: seq<Item>, x: Item, role: string)
    ensures RunLength(items + [x], role) ==
      if RunLength(items, role) == |items| && x.Text? && x.role == role then |items| + 1 else RunLength(items, role)
  {
    if items != [] && items[0].Text? && items[0].role == role {
      assert (items + [x])[1..] == items[1..] + [x];
      RunLengthAppend(items[1..], x, role);
    }
  }

  lemma {:induction false} JoinedTextAppend(items: seq<Item>, x: Item)
    ensures JoinedText(items + [x]) == JoinedText(items) + if x.Text? then x.text else ""
  {
    if items != [] {
      assert (items + [x])[1..] == items[1..] + [x];
      JoinedTextAppend(items[1..], x);
    } else {
      assert [x][1..] == [];
    }
  }

  ghost predicate Extends(items: seq<Item>, x: Item) {
    x.Text? && Open(items).Some? && Open(items).value.role == x.role
  }

  /** What one more item does: it extends the open run, or closes it. */
  ghost predicate AppendOk(items: seq<Item>, x: Item) {
    && (Open(items).Some? ==> Open(items).value.Text?)
    && Closed(items + [x]) ==
         Closed(items) + (if Extends(items, x) then [] else CloseOpen(items)) + (if x.Tool? then [x.role] else [])
    && Open(items + [x]) ==
         (if x.Tool? then None
          else if Extends(items, x) then Some(Text(x.role, Open(items).value.text + x.text))
          else Some(x))
  }

  lemma AppendToNothing(x: Item)
    ensures AppendOk([], x)
  {
    assert [] + [x] == [x] && [x][1..] == [];
    assert Closed([]) == [] && Open([]) == None;
    if x.Text? {
      assert RunLength([x], x.role) == 1;
      assert JoinedText([x]) == x.text + JoinedText([x][1..]) == x.text + "" == x.text;
    }
  }

  /** The tail of the items decides, behind something that is closed already. */
  lemma AppendBehind(items: seq<Item>, tail: seq<Item>, before: seq<string>, x: Item)
    requires AppendOk(tail, x)
    requires Closed(items) == before + Closed(tail) && Open(items) == Open(tail)
    requires Closed(items + [x]) == before + Closed(tail + [x]) && Open(items + [x]) == Open(tail + [x])
    ensures AppendOk(items, x)
  {
    assert Extends(items, x) == Extends(tail, x) && CloseOpen(items) == CloseOpen(tail);
  }

  /** All of the items are one text run. */
  ghost predicate OneRun(items: seq<Item>) {
    items != [] && items[0].Text? && RunLength(items, items[0].role) == |items|
  }

  lemma OneRunIsOpen(items: seq<Item>)
    requires OneRun(items)
    ensures Open(items) == Some(Text(items[0].role, JoinedText(items))) && Closed(items) == []
  {
  }

  lemma AppendToRun(items: seq<Item>, x: Item)
    requires OneRun(items)
    ensures AppendOk(items, x)
  {
    OneRunIsOpen(items);
    var all, n := items + [x], |items|;
    RunLengthAppend(items, x, items[0].role);
    if Extends(items, x) {
      JoinedTextAppend(items, x);
      OneRunIsOpen(all);
    } else {
      RunThenOther(items, x);
    }
  }

  lemma RunThenOther(items: seq<Item>, x: Item)
    requires OneRun(items) && RunLength(items + [x], items[0].role) == |items|
    ensures Closed(items + [x]) == CloseOpen(items) + Closed([x])
    ensures Open(items + [x]) == Open([x])
    ensures Closed([x]) == (if x.Tool? then [x.role] else []) && Open([x]) == if x.Tool? then None else Some(x)
  {
    OneRunIsOpen(items);
    var all, n := items + [x], |items|;
    assert all[..n] == items && all[n..] == [x];
    AppendToNothing(x);
    assert [] + [x] == [x];
  }

  lemma {:induction false} AppendItem(items: seq<Item>, x: Item)
    ensures AppendOk(items, x)
    decreases |items|
  {
    var all := items + [x];
    if items == [] {
      AppendToNothing(x);
    } else if items[0].Tool? {
      assert all[1..] == items[1..] + [x];
      AppendItem(items[1..], x);
      AppendBehind(items, items[1..], [items[0].role], x);
    } else {
      var role := items[0].role;
      var n := RunLength(items, role);
      if n == |items| {
        AppendToRun(items, x);
      } else {
        RunLengthAppend(items, x, role);
        assert all[..n] == items[..n] && all[n..] == items[n..] + [x];
        AppendItem(items[n..], x);
        AppendBehind(items, items[n..], if JoinedText(items[..n]) != "" then [role] else [], x);
      }
    }
  }

  /** Longer prefixes are harder to embed, longer replays easier to embed into. */
  lemma {:induction false} SubsequenceShorter(a: seq<string>, b: seq<string>)
    requires a != [] && Subsequence(a, b)
    ensures Subsequence(a[..|a| - 1], b)
    decreases |b|
  {
    var init := b[..|b| - 1];
    if Subsequence(a, init) {
      SubsequenceShorter(a, init);
      SubsequenceLonger(a[..|a| - 1], init, b[|b| - 1]);
    } else {
      SubsequenceLonger(a[..|a| - 1], init, b[|b| - 1]);
    }
    assert init + [b[|b| - 1]] == b;
  }

  lemma {:induction false} SubsequenceLonger(a: seq<string>, b: seq<string>, x: string)
    requires Subsequence(a, b)
    ensures Subsequence(a, b + [x])
  {
    assert (b + [x])[..|b|] == b;
  }

  lemma {:induction false} SubsequencePrefix(a: seq<string>, k: nat, m: nat, b: seq<string>)
    requires k <= m <= |a| && Subsequence(a[..m], b)
    ensures Subsequence(a[..k], b)
    decreases m - k
  {
    if k == m {
    } else {
      SubsequenceShorter(a[..m], b);
      assert a[..m][..m - 1] == a[..m - 1];
      SubsequencePrefix(a, k, m - 1, b);
    }
  }

  /** `k` is the largest number of leading elements of `a` that embed into `b`. */
  ghost predicate LongestEmbedding(a: seq<string>, b: seq<string>, k: nat) {
    && k <= |a|
    && Subsequence(a[..k], b)
    && forall m: nat :: m <= |a| && Subsequence(a[..m], b) ==> m <= k
  }

  /** Greedy matching keeps the embedding longest. */
  lemma GreedyStep(a: seq<string>, b: seq<string>, k: nat, x: string)
    requires LongestEmbedding(a, b, k)
    ensures LongestEmbedding(a, b + [x], if k < |a| && a[k] == x then k + 1 else k)
  {
    var b' := b + [x];
    assert b'[..|b|] == b;
    SubsequenceLonger(a[..k], b, x);
    var k' := if k < |a| && a[k] == x then k + 1 else k;
    if k' == k + 1 {
      assert a[..k + 1][..k] == a[..k];
    }
    forall m: nat | m <= |a| && Subsequence(a[..m], b') ensures m <= k' {
      if m > 0 {
        assert a[..m][..m - 1] == a[..m - 1];
        if Subsequence(a[..m], b) {
          assert m <= k;
        } else {
          assert Subsequence(a[..m - 1], b) && a[m - 1] == x;
          assert m - 1 <= k;
        }
      }
    }
  }
}

/** `ReplayBuffer`, and the arm of `session_notification` that feeds it. */
module ReplayCursor {
  import opened Collections
  import opened Notifications
  import opened ReplaySegments

  /** The buffer's fields that matter for matching. */
  datatype Buffer = Buffer(
    roles: seq<string>,
    cursor: nat,
    target: Option<nat>,
    text: string,
    role: Option<string>,
    toolCallIds: set<string>)
  {
    predicate IsComplete() {
      match target
      case Some(t) => cursor > t
      case None => true
    }

    function TryMatch(r: string): (Buffer, bool) {
      if cursor >= |roles| then (this, IsComplete())
      else
        var b := if r == roles[cursor] then this.(cursor := cursor + 1) else this;
        (b, b.IsComplete())
    }

    function FinalizeCurrent(): (Buffer, bool) {
      match role
      case None => (this, false)
      case Some(r) =>
        if text != "" then this.(role := None, text := "").TryMatch(r)
        else (this.(role := None), false)
    }

    /** Text of role `r` has arrived. */
    function AddText(r: string, t: string): (Buffer, bool) {
      var (b, done) := if role != Some(r) then FinalizeCurrent() else (this, false);
      (b.(role := Some(r), text := b.text + t), done)
    }

    function AddTool(r: string): (Buffer, bool) {
      FinalizeCurrent().0.TryMatch(r)
    }

    /** One notification in the Replaying phase, and whether `replay_done` is signalled. */
    function Observe(u: Update): (Buffer, bool) {
      var b := match ToolCallId(u) case Some(id) => this.(toolCallIds := toolCallIds + {id}) case None => this;
      match u
      case AgentText(t) => b.AddText("assistant", t)
      case UserText(t) => b.AddText("user", t)
      case ToolCall(_, _, _) => b.AddTool("tool_call")
      case ToolCallUpdate(_, _, _, content) => if content.Some? then b.AddTool("tool_result") else (b, false)
      case _ => (b, false)
    }
  }

  /** The index of the last message that is not the user's. */
  function LastNonUser(roles: seq<string>): (t: Option<nat>)
    ensures match t
            case None => forall i :: 0 <= i < |roles| ==> roles[i] == "user"
            case Some(n) => n < |roles| && roles[n] != "user" && forall i :: n < i < |roles| ==> roles[i] == "user"
  {
    if roles == [] then None
    else if roles[|roles| - 1] != "user" then Some(|roles| - 1)
    else LastNonUser(roles[..|roles| - 1])
  }

  function Fresh(roles: seq<string>): Buffer {
    Buffer(roles, 0, LastNonUser(roles), "", None, {})
  }

  class ReplayBuffer {
    const dbMessages: seq<(string, string)>
    var matchCursor: nat
    const targetIndex: Option<nat>
    var currentText: string
    var currentRole: Option<string>
    var replayedToolCallIds: set<string>

    ghost function Abs(): Buffer
      reads this
    {
      Buffer(Map((m: (string, string)) => m.0, dbMessages), matchCursor, targetIndex, currentText, currentRole,
             replayedToolCallIds)
    }

    constructor (dbMessages: seq<(string, string)>)
      ensures this.dbMessages == dbMessages
      ensures Abs() == Fresh(Map((m: (string, string)) => m.0, dbMessages))
    {
      var roles := Map((m: (string, string)) => m.0, dbMessages);
      var target: Option<nat> := None;
      var i := |roles|;
      while i > 0 && target == None
        invariant 0 <= i <= |roles|
        invariant target == None ==> LastNonUser(roles) == LastNonUser(roles[..i])
        invariant target != None ==> LastNonUser(roles) == target
      {
        i := i - 1;
        assert roles[..i + 1][..i] == roles[..i];
        if roles[i] != "user" {
          target := Some(i);
        }
      }
      this.dbMessages := dbMessages;
      matchCursor, targetIndex := 0, target;
      currentText, currentRole, replayedToolCallIds := "", None, {};
      new;
      assert target == None ==> roles[..0] == [];
    }

    method IsComplete() returns (r: bool)
      ensures r == Abs().IsComplete()
    {
      r := match targetIndex case Some(target) => matchCursor > target case None => true;
    }

    method TryMatch(role: string) returns (done: bool)
      modifies this`matchCursor
      ensures (Abs(), done) == old(Abs()).TryMatch(role)
    {
      if matchCursor < |dbMessages| {
        var dbRole := dbMessages[matchCursor].0;
        if role == dbRole {
          matchCursor := matchCursor + 1;
        }
      }
      done := IsComplete();
    }

    method FinalizeCurrent() returns (done: bool)
      modifies this
      ensures (Abs(), done) == old(Abs()).FinalizeCurrent()
    {
      done := false;
      if currentRole.Some? {
        var role := currentRole.value;
        currentRole := None;
        if currentText != "" {
          currentText := "";
          done := TryMatch(role);
        }
      }
    }

    method AddText(role: string, text: string) returns (done: bool)
      modifies this
      ensures (Abs(), done) == old(Abs()).AddText(role, text)
    {
      done := false;
      if currentRole != Some(role) {
        done := FinalizeCurrent();
        currentRole := Some(role);
      }
      currentText := currentText + text;
    }

    method AddTool(role: string) returns (done: bool)
      modifies this
      ensures (Abs(), done) == old(Abs()).AddTool(role)
    {
      var ignored := FinalizeCurrent();
      done := TryMatch(role);
    }

    method Observe(u: Update) returns (done: bool)
      modifies this
      ensures (Abs(), done) == old(Abs()).Observe(u)
    {
      var id := ToolCallId(u);
      if id.Some? {
        replayedToolCallIds := replayedToolCallIds + {id.value};
      }
      done := false;
      match u {
        case AgentText(t) => done := AddText("assistant", t);
        case UserText(t) => done := AddText("user", t);
        case ToolCall(_, _, _) => done := AddTool("tool_call");
        case ToolCallUpdate(_, _, _, content) =>
          if content.Some? {
            done := AddTool("tool_result");
          }
        case _ =>
      }
    }
  }
}

/** Whole replays. */
module ReplayRuns {
  import opened Collections
  import opened Notifications
  import opened ReplaySegments
  import opened ReplayCursor

  /** The buffer after a run of notifications. */
  function After(roles: seq<string>, us: seq<Update>): Buffer {
    if us == [] then Fresh(roles) else After(roles, us[..|us| - 1]).Observe(us[|us| - 1]).0
  }

  /** Whether the last notification of the run signals that the replay is over. */
  function Signals(roles: seq<string>, us: seq<Update>): bool
    requires us != []
  {
    After(roles, us[..|us| - 1]).Observe(us[|us| - 1]).1
  }

  /** The buffer's fields say what the items so far say. */
  ghost predicate Tracks(b: Buffer, roles: seq<string>, items: seq<Item>) {
    && b.roles == roles && b.target == LastNonUser(roles)
    && LongestEmbedding(roles, Closed(items), b.cursor)
    && (b.role == None <==> Open(items) == None)
    && (Open(items).Some? ==>
          && Open(items).value.Text?
          && b.role == Some(Open(items).value.role) && b.text == Open(items).value.text)
    && (b.role == None ==> b.text == "")
  }

  /** The stored roles through the last non-user message; the replay is over once these are embedded. */
  function Needed(roles: seq<string>): (n: nat)
    ensures n <= |roles|
  {
    match LastNonUser(roles)
    case None => 0
    case Some(t) => t + 1
  }

  lemma CompleteIffNeededEmbedded(b: Buffer, roles: seq<string>, closed: seq<string>)
    requires b.target == LastNonUser(roles) && LongestEmbedding(roles, closed, b.cursor)
    ensures b.IsComplete() <==> Subsequence(roles[..Needed(roles)], closed)
  {
    if Needed(roles) <= b.cursor {
      SubsequencePrefix(roles, Needed(roles), b.cursor, closed);
    }
  }

  lemma TryMatchEmbeds(b: Buffer, roles: seq<string>, closed: seq<string>, r: string)
    requires b.roles == roles && b.target == LastNonUser(roles) && LongestEmbedding(roles, closed, b.cursor)
    ensures var (b', done) := b.TryMatch(r);
      && b' == b.(cursor := b'.cursor)
      && LongestEmbedding(roles, closed + [r], b'.cursor)
      && (done <==> Subsequence(roles[..Needed(roles)], closed + [r]))
  {
    GreedyStep(roles, closed, b.cursor, r);
    CompleteIffNeededEmbedded(b.TryMatch(r).0, roles, closed + [r]);
  }

  lemma FinalizeEmbeds(b: Buffer, roles: seq<string>, items: seq<Item>)
    requires Tracks(b, roles, items)
    ensures var (b', done) := b.FinalizeCurrent();
      && b' == b.(cursor := b'.cursor, role := None, text := "")
      && LongestEmbedding(roles, Closed(items) + CloseOpen(items), b'.cursor)
      && (done <==> CloseOpen(items) != [] && Subsequence(roles[..Needed(roles)], Closed(items) + CloseOpen(items)))
  {
    if CloseOpen(items) != [] {
      TryMatchEmbeds(b.(role := None, text := ""), roles, Closed(items), b.role.value);
    } else {
      assert Closed(items) + [] == Closed(items);
    }
  }

  lemma TextTracked(b: Buffer, roles: seq<string>, items: seq<Item>, r: string, t: string)
    requires Tracks(b, roles, items)
    ensures var (b', done) := b.AddText(r, t);
      var items' := items + [Text(r, t)];
      && Tracks(b', roles, items')
      && (done <==> |Closed(items')| > |Closed(items)| && Subsequence(roles[..Needed(roles)], Closed(items')))
  {
    var x := Text(r, t);
    AppendItem(items, x);
    FinalizeEmbeds(b, roles, items);
    assert Closed(items) + [] + [] == Closed(items);
    assert Closed(items) + CloseOpen(items) + [] == Closed(items) + CloseOpen(items);
    assert "" + t == t;
  }

  lemma ToolTracked(b: Buffer, roles: seq<string>, items: seq<Item>, r: string)
    requires Tracks(b, roles, items)
    ensures var (b', done) := b.AddTool(r);
      var items' := items + [Tool(r)];
      && Tracks(b', roles, items')
      && (done <==> |Closed(items')| > |Closed(items)| && Subsequence(roles[..Needed(roles)], Closed(items')))
  {
    AppendItem(items, Tool(r));
    FinalizeEmbeds(b, roles, items);
    TryMatchEmbeds(b.FinalizeCurrent().0, roles, Closed(items) + CloseOpen(items), r);
  }

  /** The notification closes a segment, and the needed roles are embedded by then. */
  ghost predicate Completes(roles: seq<string>, before: seq<Item>, after: seq<Item>) {
    |Closed(after)| > |Closed(before)| && Subsequence(roles[..Needed(roles)], Closed(after))
  }

  /** One notification: the buffer keeps track, and signals exactly on completion. */
  lemma ObserveTracked(b: Buffer, roles: seq<string>, items: seq<Item>, u: Update)
    requires Tracks(b, roles, items)
    ensures var after := items + match ItemOf(u) case None => [] case Some(i) => [i];
      Tracks(b.Observe(u).0, roles, after) && (b.Observe(u).1 <==> Completes(roles, items, after))
  {
    var noted := match ToolCallId(u) case Some(id) => b.(toolCallIds := b.toolCallIds + {id}) case None => b;
    assert Tracks(noted, roles, items);
    match ItemOf(u) {
      case None => assert items + [] == items;
      case Some(Text(r, t)) => TextTracked(noted, roles, items, r, t);
      case Some(Tool(r)) => ToolTracked(noted, roles, items, r);
    }
  }

  lemma {:induction false} ReplayTracked(roles: seq<string>, us: seq<Update>)
    ensures Tracks(After(roles, us), roles, Items(us))
    ensures us != [] ==> (Signals(roles, us) <==> Completes(roles, Items(us[..|us| - 1]), Items(us)))
    decreases us
  {
    if us == [] {
      assert roles[..0] == [];
    } else {
      var init, u := us[..|us| - 1], us[|us| - 1];
      ReplayTracked(roles, init);
      ObserveTracked(After(roles, init), roles, Items(init), u);
    }
  }

  /**
   * The cursor is optimal: after any notifications it is the largest number of leading stored
   * roles that form a subsequence of the closed segments' roles.
   */
  lemma CursorIsOptimal(roles: seq<string>, us: seq<Update>)
    ensures LongestEmbedding(roles, Closed(Items(us)), After(roles, us).cursor)
  {
    ReplayTracked(roles, us);
  }

  /** The first `n` notifications complete the replay with the last of them. */
  ghost predicate CompletedBy(roles: seq<string>, us: seq<Update>, n: nat)
    requires 0 < n <= |us|
  {
    Completes(roles, Items(us[..n - 1]), Items(us[..n]))
  }

  lemma SignalIffCompleted(roles: seq<string>, us: seq<Update>, n: nat)
    requires 0 < n <= |us|
    ensures Signals(roles, us[..n]) <==> CompletedBy(roles, us, n)
  {
    ReplayTracked(roles, us[..n]);
    assert us[..n][..n - 1] == us[..n - 1];
  }

  /**
   * `replay_done` is first signalled by the first notification that closes a segment by which all
   * roles through the last non-user message are embedded.
   */
  lemma FirstSignal(roles: seq<string>, us: seq<Update>, n: nat)
    requires 0 < n <= |us|
    ensures Signals(roles, us[..n]) && (forall m :: 0 < m < n ==> !Signals(roles, us[..m])) <==>
            CompletedBy(roles, us, n) && forall m :: 0 < m < n ==> !CompletedBy(roles, us, m)
  {
    forall m | 0 < m <= n ensures Signals(roles, us[..m]) <==> CompletedBy(roles, us, m) {
      SignalIffCompleted(roles, us, m);
    }
  }
}
