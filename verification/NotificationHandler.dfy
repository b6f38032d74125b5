/** `AcpNotificationHandler`: the phases of a session and what reaches the message writer in each. */
module NotificationHandler {
  import opened Collections
  import opened Notifications
  import opened ReplayCursor

  datatype WriterCall =
    | AppendText(text: string)
    | RecordToolCall(id: string, title: string, rawInput: Option<string>)
    | UpdateToolCallTitle(id: string, newTitle: Option<string>, newInput: Option<string>)
    | RecordToolResult(preview: string)
    | OnSessionInfoUpdate(info: string)
    | OnConfigOptionUpdate(options: string)
  {
    predicate IsMetadata() { OnSessionInfoUpdate? || OnConfigOptionUpdate? }
  }

  /** What a live notification asks of the writer. */
  function Translate(u: Update): seq<WriterCall> {
    match u
    case AgentText(t) => [AppendText(t)]
    case ToolCall(id, title, input) => [RecordToolCall(id, title, input)]
    case ToolCallUpdate(id, title, input, content) =>
      (if title.Some? || input.Some? then [UpdateToolCallTitle(id, title, input)] else []) +
      (if content.Some? && content.value.preview.Some? then [RecordToolResult(content.value.preview.value)] else [])
    case _ => []
  }

  /** Session metadata goes to the writer in every phase. */
  function Metadata(u: Update): seq<WriterCall> {
    match u
    case SessionInfo(info) => [OnSessionInfoUpdate(info)]
    case ConfigOptions(options) => [OnConfigOptionUpdate(options)]
    case _ => []
  }

  datatype Mode =
    | InReplay(buffer: Buffer)
    | InWait(ids: set<string>)
    | InLive(ids: set<string>)

  /** The handler and everything it has told the writer so far. */
  datatype State = State(mode: Mode, calls: seq<WriterCall>)

  function Noted(ids: set<string>, u: Update): set<string> {
    match ToolCallId(u)
    case None => ids
    case Some(id) => ids + {id}
  }

  function Handle(s: State, u: Update): State {
    if Metadata(u) != [] then s.(calls := s.calls + Metadata(u)) else
      match s.mode
      case InReplay(b) => s.(mode := InReplay(b.Observe(u).0))
      case InWait(ids) => s.(mode := InWait(Noted(ids, u)))
      case InLive(ids) =>
        var id := ToolCallId(u);
        if id.Some? && id.value in ids then s else s.(calls := s.calls + Translate(u))
  }

  function ReplayOver(s: State): State {
    match s.mode
    case InReplay(b) => s.(mode := InWait(b.toolCallIds))
    case _ => s
  }

  function PromptSent(s: State): State {
    match s.mode
    case InReplay(b) => s.(mode := InLive(b.toolCallIds))
    case InWait(ids) => s.(mode := InLive(ids))
    case InLive(_) => s
  }

  // ---------------------------------------------------------------------------------------

  datatype Phase =
    | Replaying(buf: ReplayBuffer)
    | WaitingForPrompt(waitingIds: set<string>)
    | Live(liveIds: set<string>)

  class Handler {
    var phase: Phase
    var calls: seq<WriterCall>

    ghost function Repr(): set<object>
      reads this
    {
      if phase.Replaying? then {phase.buf} else {}
    }

    ghost function Abs(): State
      reads this, Repr()
    {
      State(match phase
            case Replaying(buf) => InReplay(buf.Abs())
            case WaitingForPrompt(ids) => InWait(ids)
            case Live(ids) => InLive(ids),
            calls)
    }

    constructor (replaying: bool, dbMessages: seq<(string, string)>)
      ensures fresh(Repr())
      ensures Abs() == Init(replaying, Map((m: (string, string)) => m.0, dbMessages))
    {
      calls := [];
      if replaying {
        var buf := new ReplayBuffer(dbMessages);
        phase := Replaying(buf);
      } else {
        phase := Live({});
      }
    }

    method TransitionToWaitingForPrompt()
      modifies this`phase
      ensures Abs() == ReplayOver(old(Abs()))
    {
      match phase {
        case Replaying(buf) => phase := WaitingForPrompt(buf.replayedToolCallIds);
        case WaitingForPrompt(_) =>
        case Live(_) =>
      }
    }

    method TransitionToLive()
      modifies this`phase
      ensures Abs() == PromptSent(old(Abs()))
    {
      match phase {
        case WaitingForPrompt(ids) => phase := Live(ids);
        case Replaying(buf) => phase := Live(buf.replayedToolCallIds);
        case Live(_) =>
      }
    }

    method SessionNotification(u: Update) returns (replayDone: bool)
      modifies this, Repr()
      ensures Abs() == Handle(old(Abs()), u)
      ensures Repr() == old(Repr())
      ensures replayDone <==> old(Abs()).mode.InReplay? && Metadata(u) == [] && old(Abs()).mode.buffer.Observe(u).1
    {
      replayDone := false;
      match u {
        case SessionInfo(info) =>
          calls := calls + [OnSessionInfoUpdate(info)];
          return;
        case ConfigOptions(options) =>
          calls := calls + [OnConfigOptionUpdate(options)];
          return;
        case _ =>
      }
      match phase {
        case Replaying(buf) =>
          replayDone := buf.Observe(u);
        case WaitingForPrompt(ids) =>
          var id := ToolCallId(u);
          if id.Some? {
            phase := WaitingForPrompt(ids + {id.value});
          }
        case Live(ids) =>
          var id := ToolCallId(u);
          if !(id.Some? && id.value in ids) {
            PerformLive(u);
          }
      }
    }

    /** The action for a live notification, carried out after the lock is released. */
    method PerformLive(u: Update)
      modifies this`calls
      ensures calls == old(calls) + Translate(u)
    {
      match u {
        case AgentText(text) => calls := calls + [AppendText(text)];
        case ToolCall(id, title, input) => calls := calls + [RecordToolCall(id, title, input)];
        case ToolCallUpdate(id, title, input, content) =>
          var result := if content.Some? then content.value.preview else None;
          if title.Some? || input.Some? {
            calls := calls + [UpdateToolCallTitle(id, title, input)];
          }
          if result.Some? {
            calls := calls + [RecordToolResult(result.value)];
          }
        case _ =>
      }
    }
  }

  // ---------------------------------------------------------------------------------------
  // Whole sessions, one event at a time

  datatype Event = Notified(u: Update) | ReplayWaitEnds | PromptGoesOut

  function Init(resuming: bool, roles: seq<string>): State {
    State(if resuming then InReplay(Fresh(roles)) else InLive({}), [])
  }

  function Step(s: State, e: Event): State {
    match e
    case Notified(u) => Handle(s, u)
    case ReplayWaitEnds => ReplayOver(s)
    case PromptGoesOut => PromptSent(s)
  }

  function Run(resuming: bool, roles: seq<string>, es: seq<Event>): State {
    if es == [] then Init(resuming, roles)
    else Step(Run(resuming, roles, es[..|es| - 1]), es[|es| - 1])
  }

  /** Before event `n` the session has gone live: it was new, or the prompt has gone out. */
  ghost predicate LiveAt(resuming: bool, es: seq<Event>, n: nat)
    requires n <= |es|
  {
    !resuming || exists i :: 0 <= i < n && es[i] == PromptGoesOut
  }

  /** The tool call has been mentioned before the session went live. */
  ghost predicate MentionedEarly(resuming: bool, es: seq<Event>, n: nat, id: string)
    requires n <= |es|
  {
    exists i :: 0 <= i < n && es[i].Notified? && !LiveAt(resuming, es, i) && ToolCallId(es[i].u) == Some(id)
  }

  /** The notification reaches the writer as content: received live, about no early tool call. */
  ghost predicate Forwarded(resuming: bool, es: seq<Event>, n: nat)
    requires n < |es|
  {
    && es[n].Notified?
    && LiveAt(resuming, es, n)
    && match ToolCallId(es[n].u) case None => true case Some(id) => !MentionedEarly(resuming, es, n, id)
  }

  /** The translations of the forwarded notifications among the first `n` events, in order. */
  ghost function ForwardedCalls(resuming: bool, es: seq<Event>, n: nat): seq<WriterCall>
    requires n <= |es|
  {
    if n == 0 then [] else
      ForwardedCalls(resuming, es, n - 1) + if Forwarded(resuming, es, n - 1) then Translate(es[n - 1].u) else []
  }

  ghost function MetadataCalls(es: seq<Event>): seq<WriterCall> {
    if es == [] then [] else
      MetadataCalls(es[..|es| - 1]) + match es[|es| - 1] case Notified(u) => Metadata(u) case _ => []
  }

  function Select(calls: seq<WriterCall>, metadata: bool): seq<WriterCall> {
    if calls == [] then [] else
      Select(calls[..|calls| - 1], metadata) +
      if calls[|calls| - 1].IsMetadata() == metadata then [calls[|calls| - 1]] else []
  }

  lemma {:induction false} SelectConcat(a: seq<WriterCall>, b: seq<WriterCall>, metadata: bool)
    ensures Select(a + b, metadata) == Select(a, metadata) + Select(b, metadata)
    decreases b
  {
    if b == [] {
      assert a + b == a;
    } else {
      assert (a + b)[..|a + b| - 1] == a + b[..|b| - 1];
      SelectConcat(a, b[..|b| - 1], metadata);
    }
  }

  lemma {:induction false} SelectUniform(calls: seq<WriterCall>, metadata: bool)
    requires forall i :: 0 <= i < |calls| ==> calls[i].IsMetadata() == metadata
    ensures Select(calls, metadata) == calls && Select(calls, !metadata) == []
  {
    if calls == [] {
    } else {
      SelectUniform(calls[..|calls| - 1], metadata);
    }
  }

  function RememberedIds(s: State): set<string> {
    match s.mode
    case InReplay(b) => b.toolCallIds
    case InWait(ids) => ids
    case InLive(ids) => ids
  }

  /** The handler is live when the session is, and remembers the tool calls mentioned early. */
  ghost predicate Remembers(s: State, resuming: bool, es: seq<Event>) {
    && (s.mode.InLive? <==> LiveAt(resuming, es, |es|))
    && forall id :: id in RememberedIds(s) <==> MentionedEarly(resuming, es, |es|, id)
  }

  /** One event: only a notification before the session is live adds to the memory. */
  lemma StepIds(s: State, e: Event)
    ensures RememberedIds(Step(s, e)) ==
      if e.Notified? && !s.mode.InLive? then Noted(RememberedIds(s), e.u) else RememberedIds(s)
    ensures Step(s, e).mode.InLive? <==> s.mode.InLive? || e == PromptGoesOut
  {
  }

  lemma EarlyStep(resuming: bool, es: seq<Event>, n: nat, id: string)
    requires n < |es|
    ensures MentionedEarly(resuming, es, n + 1, id) <==>
      || MentionedEarly(resuming, es, n, id)
      || (es[n].Notified? && !LiveAt(resuming, es, n) && ToolCallId(es[n].u) == Some(id))
  {
  }

  lemma PrefixFacts(resuming: bool, es: seq<Event>, n: nat)
    requires n < |es|
    ensures forall k: nat :: k <= n ==> (LiveAt(resuming, es[..n], k) <==> LiveAt(resuming, es, k))
    ensures forall id :: MentionedEarly(resuming, es[..n], n, id) <==> MentionedEarly(resuming, es, n, id)
  {
    assert forall i :: 0 <= i < n ==> es[..n][i] == es[i];
  }

  lemma {:induction false} RunRemembers(resuming: bool, roles: seq<string>, es: seq<Event>)
    ensures Remembers(Run(resuming, roles, es), resuming, es)
    decreases es
  {
    if es == [] {
    } else {
      var n := |es| - 1;
      var s := Run(resuming, roles, es[..n]);
      RunRemembers(resuming, roles, es[..n]);
      PrefixFacts(resuming, es, n);
      StepIds(s, es[n]);
      forall id ensures id in RememberedIds(Step(s, es[n])) <==> MentionedEarly(resuming, es, n + 1, id) {
        EarlyStep(resuming, es, n, id);
      }
    }
  }

  /** The calls made while handling one notification. */
  function Added(s: State, u: Update): seq<WriterCall> {
    if Metadata(u) != [] then Metadata(u)
    else if s.mode.InLive? && (ToolCallId(u) == None || ToolCallId(u).value !in s.mode.ids) then Translate(u)
    else []
  }

  lemma HandleAdds(s: State, u: Update)
    ensures Handle(s, u).calls == s.calls + Added(s, u)
  {
    assert s.calls + [] == s.calls;
  }

  lemma SelectAdded(s: State, u: Update)
    ensures Select(Added(s, u), true) == Metadata(u)
    ensures Select(Added(s, u), false) ==
      if s.mode.InLive? && (ToolCallId(u) == None || ToolCallId(u).value !in s.mode.ids) then Translate(u) else []
  {
    SelectUniform(Added(s, u), Metadata(u) != []);
  }

  /** What one event adds to the content and to the metadata calls. */
  lemma StepCalls(s: State, e: Event)
    ensures Select(Step(s, e).calls, false) == Select(s.calls, false) +
      (if e.Notified? && s.mode.InLive? && (ToolCallId(e.u) == None || ToolCallId(e.u).value !in s.mode.ids)
       then Translate(e.u) else [])
    ensures Select(Step(s, e).calls, true) == Select(s.calls, true) + if e.Notified? then Metadata(e.u) else []
  {
    if e.Notified? {
      HandleAdds(s, e.u);
      SelectAdded(s, e.u);
      SelectConcat(s.calls, Added(s, e.u), true);
      SelectConcat(s.calls, Added(s, e.u), false);
    }
  }

  lemma {:induction false} ForwardedPrefix(resuming: bool, es: seq<Event>, n: nat, k: nat)
    requires k <= n < |es|
    ensures ForwardedCalls(resuming, es[..n], k) == ForwardedCalls(resuming, es, k)
    decreases k
  {
    if k == 0 {
    } else {
      ForwardedPrefix(resuming, es, n, k - 1);
      PrefixFacts(resuming, es, n);
      PrefixFacts(resuming, es, k - 1);
      PrefixFacts(resuming, es[..n], k - 1);
      assert es[..n][..k - 1] == es[..k - 1];
    }
  }

  /**
   * Writer isolation. The content calls made on the writer in a session are exactly, in order,
   * the translations of the notifications received live about tool calls that no notification
   * mentioned before, whichever way the session became live. Metadata always gets through.
   */
  lemma {:induction false} WriterIsolation(resuming: bool, roles: seq<string>, es: seq<Event>)
    ensures Select(Run(resuming, roles, es).calls, false) == ForwardedCalls(resuming, es, |es|)
    ensures Select(Run(resuming, roles, es).calls, true) == MetadataCalls(es)
    decreases es
  {
    if es == [] {
    } else {
      var n := |es| - 1;
      WriterIsolation(resuming, roles, es[..n]);
      RunRemembers(resuming, roles, es[..n]);
      PrefixFacts(resuming, es, n);
      ForwardedPrefix(resuming, es, n, n);
      StepCalls(Run(resuming, roles, es[..n]), es[n]);
    }
  }
}
