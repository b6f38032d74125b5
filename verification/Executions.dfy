/**
 * The life of an action execution in crates/builderbot-actions/src/executor.rs: shared tables
 * behind locks, and what every interleaving of the threads that use them keeps.
 */
module ExecutionTables {
  import opened Collections

  datatype Chunk = Chunk(chunk: string, stream: string, timestamp: int)

  /** The executor's tables, and every output buffer ever made. */
  datatype Tables = Tables(
    running: set<string>,
    buffers: map<string, seq<Chunk>>,
    completed: map<string, seq<Chunk>>,
    stopped: set<string>)

  function Registered(t: Tables, id: string): Tables {
    t.(running := t.running + {id}, buffers := t.buffers[id := []])
  }

  function Pushed(t: Tables, id: string, c: Chunk): Tables
    requires id in t.buffers
  {
    t.(buffers := t.buffers[id := t.buffers[id] + [c]])
  }

  function Marked(t: Tables, id: string): Tables {
    t.(stopped := t.stopped + {id})
  }

  function Unmarked(t: Tables, id: string): Tables {
    t.(stopped := t.stopped - {id})
  }

  function Withdrawn(t: Tables, id: string): Tables {
    t.(running := t.running - {id})
  }

  function Stored(t: Tables, id: string, output: seq<Chunk>): Tables {
    t.(completed := t.completed[id := output])
  }

  function Cleared(t: Tables, id: string): Tables {
    t.(completed := t.completed - {id})
  }

  class OutputBuffer {
    var chunks: seq<Chunk>

    constructor ()
      ensures chunks == []
    {
      chunks := [];
    }
  }

  class ActionExecutor {
    var running: map<string, OutputBuffer>
    var completed: map<string, seq<Chunk>>
    var stopped: set<string>
    ghost var made: map<string, OutputBuffer>

    ghost function Repr(): set<object>
      reads this
    {
      set id | id in made :: made[id]
    }

    ghost predicate Valid()
      reads this
    {
      && (forall id :: id in running ==> id in made && made[id] == running[id])
      && (forall i, j :: i in made && j in made && made[i] == made[j] ==> i == j)
    }

    ghost function Abs(): Tables
      reads this, Repr()
    {
      Tables(running.Keys, map id | id in made :: made[id].chunks, completed, stopped)
    }

    constructor ()
      ensures Valid() && Abs() == Tables({}, map[], map[], {})
    {
      running, completed, stopped, made := map[], map[], {}, map[];
    }

    /** Records the running action, with a new output buffer. */
    method Register(id: string) returns (buffer: OutputBuffer)
      requires Valid() && id !in made
      modifies this
      ensures Valid() && Abs() == Registered(old(Abs()), id)
      ensures made == old(made)[id := buffer] && fresh(buffer)
    {
      ghost var before := Abs();
      buffer := new OutputBuffer();
      assert buffer !in Repr();
      assert forall i :: i in made ==> made[i] in Repr();
      running := running[id := buffer];
      made := made[id := buffer];
      assert running.Keys == before.running + {id};
      assert Abs().buffers == before.buffers[id := []];
    }

    /** A reader thread stores a chunk through its own handle on the buffer. */
    method Push(buffer: OutputBuffer, c: Chunk, ghost id: string)
      requires Valid() && id in made && made[id] == buffer
      modifies buffer
      ensures Valid() && Abs() == Pushed(old(Abs()), id, c)
    {
      buffer.chunks := buffer.chunks + [c];
    }

    /** The first locked section of `stop_with_options`. */
    method MarkStopped(id: string)
      requires Valid()
      modifies this`stopped
      ensures Valid() && Abs() == Marked(old(Abs()), id)
    {
      stopped := stopped + {id};
    }

    /** The completion thread takes the mark back. */
    method TakeStopMark(id: string) returns (wasStopped: bool)
      requires Valid()
      modifies this`stopped
      ensures Valid() && Abs() == Unmarked(old(Abs()), id)
      ensures wasStopped <==> id in old(stopped)
    {
      wasStopped := id in stopped;
      stopped := stopped - {id};
    }

    /** The completion thread's section under the `running` lock, with nothing in between. */
    method MoveToCompleted(id: string)
      requires Valid()
      modifies this`running, this`completed
      ensures Valid()
      ensures Abs() ==
        if id in old(running) then Stored(Withdrawn(old(Abs()), id), id, old(running[id].chunks)) else old(Abs())
    {
      if id in running {
        var state := running[id];
        running := running - {id};
        var output := state.chunks;
        completed := completed[id := output];
      }
    }

    /** The first locked section of `get_buffered_output`. */
    method LookInRunning(id: string) returns (r: Option<seq<Chunk>>)
      requires Valid()
      ensures r == if id in Abs().running then Some(Abs().buffers[id]) else None
    {
      r := if id in running then Some(running[id].chunks) else None;
    }

    /** The second. */
    method LookInCompleted(id: string) returns (r: Option<seq<Chunk>>)
      requires Valid()
      ensures r == if id in Abs().completed then Some(Abs().completed[id]) else None
    {
      r := if id in completed then Some(completed[id]) else None;
    }

    /** `get_buffered_output` when nothing happens between its two sections. */
    method GetBufferedOutput(id: string) returns (r: Option<seq<Chunk>>)
      requires Valid()
      ensures id in Abs().running ==> r == Some(Abs().buffers[id])
      ensures id !in Abs().running && id in Abs().completed ==> r == Some(Abs().completed[id])
      ensures r == None <==> id !in Abs().running && id !in Abs().completed
    {
      r := LookInRunning(id);
      if r == None {
        r := LookInCompleted(id);
      }
    }

    method ClearExecution(id: string) returns (found: bool)
      requires Valid()
      modifies this`completed
      ensures Valid() && Abs() == Cleared(old(Abs()), id)
      ensures found <==> id in old(completed)
    {
      found := id in completed;
      completed := completed - {id};
    }
  }
}

/** Every interleaving of the threads, one locked section at a time. */
module ExecutionRuns {
  import opened Collections
  import opened Runs
  import opened ExecutionTables

  datatype Status = Stopped | Completed | Failed

  datatype Event = StatusChanged(id: string, status: Status) | Signalled(id: string)

  /** Where the completion thread of an execution is. */
  datatype Stage =
    | Waiting                                                      // in `child.wait()`
    | Exited(success: bool)
    | MarkTaken(success: bool, wasStopped: bool)
    | Moving(success: bool, wasStopped: bool)                      // holds the `running` lock
    | Copied(success: bool, wasStopped: bool, output: seq<Chunk>)  // still holds it
    | Moved(success: bool, wasStopped: bool)
    | Announced(success: bool, wasStopped: bool)
    | Done(success: bool, wasStopped: bool)

  /** A `get_buffered_output` call between its two locked sections, or answered. */
  datatype Query =
    | Missed(id: string, knownThen: bool)
    | Answered(id: string, knownThen: bool, answer: Option<seq<Chunk>>)

  /** `cleared` remembers which outputs `clear_execution` has removed. */
  datatype State = State(
    t: Tables,
    stages: map<string, Stage>,
    lockedBy: Option<string>,
    events: seq<Event>,
    queries: map<nat, Query>,
    cleared: set<string>)

  datatype Action =
    | Start(id: string)
    | Read(id: string, c: Chunk)  // a reader thread, which may outlive the move
    | Stop(id: string)
    | ChildExits(id: string, success: bool)
    | TakeMark(id: string)
    | Withdraw(id: string)        // takes the `running` lock
    | Copy(id: string)
    | Store(id: string)           // releases the `running` lock
    | Announce(id: string)
    | Signal(id: string)
    | Ask(op: nat, id: string)    // first half of `get_buffered_output`
    | AskAgain(op: nat)           // second half
    | Clear(id: string)

  const INIT := State(Tables({}, map[], map[], {}), map[], None, [], map[], {})

  /** Sections that need the `running` lock wait while a completion thread holds it. */
  predicate Enabled(s: State, a: Action) {
    match a
    case Start(id) => id !in s.stages && s.lockedBy == None
    case Read(id, _) => id in s.stages
    case Stop(_) => true
    case ChildExits(id, _) => id in s.stages && s.stages[id].Waiting?
    case TakeMark(id) => id in s.stages && s.stages[id].Exited?
    case Withdraw(id) => id in s.stages && s.stages[id].MarkTaken? && s.lockedBy == None
    case Copy(id) => id in s.stages && s.stages[id].Moving?
    case Store(id) => id in s.stages && s.stages[id].Copied?
    case Announce(id) => id in s.stages && s.stages[id].Moved?
    case Signal(id) => id in s.stages && s.stages[id].Announced?
    case Ask(op, _) => op !in s.queries && s.lockedBy == None
    case AskAgain(op) => op in s.queries && s.queries[op].Missed?
    case Clear(_) => true
  }

  function StatusOf(success: bool, wasStopped: bool): Status {
    if wasStopped then Stopped else if success then Completed else Failed
  }

  function BufferOf(t: Tables, id: string): seq<Chunk> {
    if id in t.buffers then t.buffers[id] else []
  }

  function Apply(s: State, a: Action): State
    requires Enabled(s, a)
  {
    match a
    case Start(id) => s.(t := Registered(s.t, id), stages := s.stages[id := Waiting])
    case Read(id, c) => if id in s.t.buffers then s.(t := Pushed(s.t, id, c)) else s
    case Stop(id) => s.(t := Marked(s.t, id))
    case ChildExits(id, success) => s.(stages := s.stages[id := Exited(success)])
    case TakeMark(id) =>
      s.(t := Unmarked(s.t, id), stages := s.stages[id := MarkTaken(s.stages[id].success, id in s.t.stopped)])
    case Withdraw(id) =>
      var g := s.stages[id];
      s.(t := Withdrawn(s.t, id), stages := s.stages[id := Moving(g.success, g.wasStopped)], lockedBy := Some(id))
    case Copy(id) =>
      var g := s.stages[id];
      s.(stages := s.stages[id := Copied(g.success, g.wasStopped, BufferOf(s.t, id))])
    case Store(id) =>
      var g := s.stages[id];
      s.(t := Stored(s.t, id, g.output), stages := s.stages[id := Moved(g.success, g.wasStopped)], lockedBy := None)
    case Announce(id) =>
      var g := s.stages[id];
      s.(stages := s.stages[id := Announced(g.success, g.wasStopped)],
         events := s.events + [StatusChanged(id, StatusOf(g.success, g.wasStopped))])
    case Signal(id) =>
      var g := s.stages[id];
      s.(stages := s.stages[id := Done(g.success, g.wasStopped)], events := s.events + [Signalled(id)])
    case Ask(op, id) =>
      var known := id in s.stages && id !in s.cleared;
      s.(queries := s.queries[op := if id in s.t.running then Answered(id, known, Some(BufferOf(s.t, id)))
                                    else Missed(id, known)])
    case AskAgain(op) =>
      var q := s.queries[op];
      var found := if q.id in s.t.completed then Some(s.t.completed[q.id]) else None;
      s.(queries := s.queries[op := Answered(q.id, q.knownThen, found)])
    case Clear(id) =>
      s.(t := Cleared(s.t, id), cleared := if id in s.t.completed then s.cleared + {id} else s.cleared)
  }

  function Step(s: State, a: Action): Option<State> {
    if Enabled(s, a) then Some(Apply(s, a)) else None
  }

  function Run(actions: seq<Action>): Option<State> {
    RunFrom(Step, INIT, actions)
  }

  // ---------------------------------------------------------------------------------------
  // What every step keeps.

  ghost predicate PastMove(g: Stage) {
    g.Moved? || g.Announced? || g.Done?
  }

  /** Where an execution is filed at each stage of its completion thread. */
  ghost predicate PlaceOk(s: State, id: string)
    requires id in s.stages
  {
    var g := s.stages[id];
    && id in s.t.buffers
    && (id in s.t.running <==> g.Waiting? || g.Exited? || g.MarkTaken?)
    && (s.lockedBy == Some(id) <==> g.Moving? || g.Copied?)
    && (g.Copied? ==> g.output <= s.t.buffers[id])
    && (id in s.t.completed ==> s.t.completed[id] <= s.t.buffers[id])
    && (if PastMove(g) then (id in s.t.completed) != (id in s.cleared)
        else id !in s.t.completed && id !in s.cleared)
  }

  ghost predicate PlacesOk(s: State) {
    && (forall id :: id in s.stages ==> PlaceOk(s, id))
    && (forall id :: id in s.t.buffers || id in s.t.running || id in s.t.completed || id in s.cleared ==>
      id in s.stages)
    && (s.lockedBy.Some? ==> s.lockedBy.value in s.stages)
  }

  /** A query that misses a known execution in `running` can only come after its move. */
  ghost predicate QueryOk(s: State, q: Query) {
    match q
    case Missed(id, known) => known ==> id in s.t.completed || id in s.cleared
    case Answered(id, known, answer) =>
      && (known && answer == None ==> id in s.cleared)
      && (answer.Some? ==> id in s.t.buffers && answer.value <= s.t.buffers[id])
  }

  ghost predicate QueriesOk(s: State) {
    forall op :: op in s.queries ==> QueryOk(s, s.queries[op])
  }

  ghost predicate HasAnnounced(s: State, id: string) {
    id in s.stages && (s.stages[id].Announced? || s.stages[id].Done?)
  }

  ghost predicate EventOk(s: State, e: Event) {
    HasAnnounced(s, e.id) &&
    match e
    case StatusChanged(id, status) => status == StatusOf(s.stages[id].success, s.stages[id].wasStopped)
    case Signalled(id) => s.stages[id].Done?
  }

  predicate SameKind(e: Event, f: Event) {
    e.id == f.id && e.StatusChanged? == f.StatusChanged?
  }

  /** Some event before position `k` announces a status of the execution. */
  ghost predicate AnnouncedBefore(events: seq<Event>, k: nat, id: string) {
    exists j :: 0 <= j < k && j < |events| && events[j].StatusChanged? && events[j].id == id
  }

  ghost predicate EventsOk(s: State) {
    && (forall i :: 0 <= i < |s.events| ==> EventOk(s, s.events[i]))
    && (forall i, j :: 0 <= i < j < |s.events| ==> !SameKind(s.events[i], s.events[j]))
    && (forall i :: 0 <= i < |s.events| && s.events[i].Signalled? ==> AnnouncedBefore(s.events, i, s.events[i].id))
    && (forall id :: HasAnnounced(s, id) ==> AnnouncedBefore(s.events, |s.events|, id))
  }

  ghost predicate Inv(s: State) {
    PlacesOk(s) && QueriesOk(s) && EventsOk(s)
  }

  lemma StepKeepsPlaces(s: State, a: Action)
    requires PlacesOk(s) && Enabled(s, a)
    ensures PlacesOk(Apply(s, a))
  {
    forall id | id in Apply(s, a).stages ensures PlaceOk(Apply(s, a), id) {
      OnePlaceKept(s, a, id);
    }
  }

  lemma OnePlaceKept(s: State, a: Action, id: string)
    requires PlacesOk(s) && Enabled(s, a) && id in Apply(s, a).stages
    ensures PlaceOk(Apply(s, a), id)
  {
    assert id in s.stages ==> PlaceOk(s, id);
    match a
    case Start(i) =>
    case Withdraw(i) =>
    case Copy(i) =>
    case Store(i) =>
    case Clear(i) =>
    case _ => assert PlaceOk(s, id);
  }

  /** Buffers only grow, and what was filed as completed leaves only by being cleared. */
  ghost predicate Grows(s: State, u: State) {
    && (forall id :: id in s.t.buffers ==> id in u.t.buffers && s.t.buffers[id] <= u.t.buffers[id])
    && s.cleared <= u.cleared
    && (forall id :: id in s.t.completed ==> id in u.t.completed || id in u.cleared)
  }

  lemma StepGrows(s: State, a: Action)
    requires PlacesOk(s) && Enabled(s, a)
    ensures Grows(s, Apply(s, a))
  {
    match a
    case Start(id) => assert id !in s.t.buffers;
    case Read(id, c) =>
    case Store(id) =>
    case Clear(id) =>
    case _ => assert Apply(s, a).t.buffers == s.t.buffers && Apply(s, a).t.completed == s.t.completed;
  }

  lemma StepKeepsQueries(s: State, a: Action)
    requires PlacesOk(s) && QueriesOk(s) && Enabled(s, a)
    ensures QueriesOk(Apply(s, a))
  {
    var u := Apply(s, a);
    StepGrows(s, a);
    forall op | op in u.queries
      ensures QueryOk(u, u.queries[op])
    {
      if op in s.queries {
        assert QueryOk(s, s.queries[op]);
      }
      if a.Ask? && op == a.op && a.id in s.stages {
        assert PlaceOk(s, a.id);
      }
      if a.AskAgain? && op == a.op && s.queries[op].id in s.t.completed {
        assert PlaceOk(s, s.queries[op].id);
      }
    }
  }

  lemma AnnouncementsStay(events: seq<Event>, more: seq<Event>, k: nat, id: string)
    requires events <= more && AnnouncedBefore(events, k, id)
    ensures forall m: nat :: k <= m ==> AnnouncedBefore(more, m, id)
  {
    var j :| 0 <= j < k && j < |events| && events[j].StatusChanged? && events[j].id == id;
    assert more[j] == events[j];
  }

  lemma StepKeepsEvents(s: State, a: Action)
    requires EventsOk(s) && Enabled(s, a)
    ensures EventsOk(Apply(s, a))
  {
    var u := Apply(s, a);
    forall i | 0 <= i < |u.events|
      ensures EventOk(u, u.events[i])
    {
      if i < |s.events| {
        assert EventOk(s, s.events[i]);
      }
    }
    forall i, j | 0 <= i < j < |u.events|
      ensures !SameKind(u.events[i], u.events[j])
    {
      assert EventOk(s, s.events[i]);
      if j < |s.events| {
        assert !SameKind(s.events[i], s.events[j]);
      }
    }
    forall i | 0 <= i < |u.events| && u.events[i].Signalled?
      ensures AnnouncedBefore(u.events, i, u.events[i].id)
    {
      if i < |s.events| {
        AnnouncementsStay(s.events, u.events, i, u.events[i].id);
      } else {
        AnnouncementsStay(s.events, u.events, |s.events|, u.events[i].id);
      }
    }
    forall id | HasAnnounced(u, id)
      ensures AnnouncedBefore(u.events, |u.events|, id)
    {
      if HasAnnounced(s, id) {
        AnnouncementsStay(s.events, u.events, |s.events|, id);
      } else {
        assert u.events[|s.events|].id == id;
      }
    }
  }

  lemma RunKeepsInv(actions: seq<Action>)
    requires Run(actions).Some?
    ensures Inv(Run(actions).value)
  {
    forall s, a | Inv(s) && Step(s, a).Some? ensures Inv(Step(s, a).value) {
      StepKeepsPlaces(s, a);
      StepKeepsQueries(s, a);
      StepKeepsEvents(s, a);
    }
    RunKeeps(Step, Inv, INIT, actions);
  }

  // ---------------------------------------------------------------------------------------
  // What holds over every run.

  /**
   * A started execution that was not cleared is in exactly one of the two tables, except
   * while its own completion thread holds the `running` lock; it is never in both.
   */
  lemma FiledExactlyOnce(actions: seq<Action>, id: string)
    requires Run(actions).Some?
    ensures var s := Run(actions).value;
      id in s.stages && id !in s.cleared ==>
        && !(id in s.t.running && id in s.t.completed)
        && (id in s.t.running || id in s.t.completed <==> s.lockedBy != Some(id))
  {
    RunKeepsInv(actions);
    var s := Run(actions).value;
    if id in s.stages {
      assert PlaceOk(s, id);
    }
  }

  /**
   * `get_buffered_output` finds a known execution across its two locks, whatever happens
   * between them: it answers nothing only if the output was cleared. An answer is a prefix of
   * what the readers buffer.
   */
  lemma KnownOutputIsFound(actions: seq<Action>, op: nat)
    requires Run(actions).Some? && op in Run(actions).value.queries && Run(actions).value.queries[op].Answered?
    ensures var s := Run(actions).value; var q := s.queries[op];
      && (q.knownThen && q.answer == None ==> q.id in s.cleared)
      && (q.answer.Some? ==> q.answer.value <= BufferOf(s.t, q.id))
  {
    RunKeepsInv(actions);
    var s := Run(actions).value;
    assert QueryOk(s, s.queries[op]);
  }

  /** Stored output is a prefix of the buffered chunks; readers may still push afterwards. */
  lemma StoredOutputIsPrefix(actions: seq<Action>, id: string)
    requires Run(actions).Some? && id in Run(actions).value.t.completed
    ensures Run(actions).value.t.completed[id] <= BufferOf(Run(actions).value.t, id)
  {
    RunKeepsInv(actions);
    assert PlaceOk(Run(actions).value, id);
  }

  /** No execution announces two statuses or signals twice, and it signals after announcing. */
  lemma OneStatusThenSignal(actions: seq<Action>)
    requires Run(actions).Some?
    ensures var events := Run(actions).value.events;
      && (forall i, j :: 0 <= i < j < |events| ==> !SameKind(events[i], events[j]))
      && (forall i :: 0 <= i < |events| && events[i].Signalled? ==> AnnouncedBefore(events, i, events[i].id))
  {
    RunKeepsInv(actions);
  }

  /** Step `x` was taken before some step `y`. */
  ghost predicate Before(actions: seq<Action>, x: Action, y: Action) {
    exists i, j :: 0 <= i < j < |actions| && actions[i] == x && actions[j] == y
  }

  lemma BeforeExtends(actions: seq<Action>, a: Action, x: Action, y: Action)
    ensures Before(actions + [a], x, y) <==> Before(actions, x, y) || (a == y && x in actions)
  {
    var more := actions + [a];
    if Before(more, x, y) {
      var i, j :| 0 <= i < j < |more| && more[i] == x && more[j] == y;
      assert actions[i] == x;
      assert j < |actions| ==> actions[j] == y;
    }
    if Before(actions, x, y) {
      var i, j :| 0 <= i < j < |actions| && actions[i] == x && actions[j] == y;
      assert more[i] == x && more[j] == y;
    }
    if a == y && x in actions {
      var i :| 0 <= i < |actions| && actions[i] == x;
      assert more[i] == x && more[|actions|] == y;
    }
  }

  /** How the fields of a stage follow from the steps taken. */
  ghost predicate HistoryOk(actions: seq<Action>, s: State, id: string) {
    && (if id !in s.stages || s.stages[id].Waiting? then
          ChildExits(id, true) !in actions && ChildExits(id, false) !in actions
        else s.stages[id].success <==> ChildExits(id, true) in actions)
    && (if id !in s.stages || s.stages[id].Waiting? || s.stages[id].Exited? then
          TakeMark(id) !in actions && (id in s.t.stopped <==> Stop(id) in actions)
        else s.stages[id].wasStopped <==> Before(actions, Stop(id), TakeMark(id)))
  }

  lemma BeforeNeedsBoth(actions: seq<Action>, x: Action, y: Action)
    ensures Before(actions, x, y) ==> y in actions
  {
  }

  lemma StepKeepsHistory(before: seq<Action>, a: Action, s: State, id: string)
    requires HistoryOk(before, s, id) && Enabled(s, a)
    ensures HistoryOk(before + [a], Apply(s, a), id)
  {
    BeforeExtends(before, a, Stop(id), TakeMark(id));
    BeforeNeedsBoth(before, Stop(id), TakeMark(id));
  }

  lemma {:induction false} RunKeepsHistory(actions: seq<Action>, id: string)
    requires Run(actions).Some?
    ensures HistoryOk(actions, Run(actions).value, id)
  {
    if actions == [] {
    } else {
      var before, a := actions[..|actions| - 1], actions[|actions| - 1];
      RunKeepsHistory(before, id);
      StepKeepsHistory(before, a, Run(before).value, id);
      assert before + [a] == actions;
    }
  }

  /** The status an execution ought to end with, read off the steps alone. */
  ghost function StatusDue(actions: seq<Action>, id: string): Status {
    if Before(actions, Stop(id), TakeMark(id)) then Stopped
    else if ChildExits(id, true) in actions then Completed
    else Failed
  }

  /**
   * Every announced status is the one due: stopped exactly when the mark was set before the
   * completion thread took it back, and otherwise by how the child exited.
   */
  lemma AnnouncedStatusIsDue(actions: seq<Action>, id: string, status: Status)
    requires Run(actions).Some? && StatusChanged(id, status) in Run(actions).value.events
    ensures status == StatusDue(actions, id)
  {
    RunKeepsInv(actions);
    RunKeepsHistory(actions, id);
    var s := Run(actions).value;
    assert EventOk(s, StatusChanged(id, status));
  }

  /** With nobody in between, the completion thread's three steps are `MoveToCompleted`. */
  lemma MoveIsThreeSteps(actions: seq<Action>, id: string)
    requires Run(actions).Some? && Enabled(Run(actions).value, Withdraw(id))
    ensures var s := Run(actions).value; var moved := Run(actions + [Withdraw(id)] + [Copy(id)] + [Store(id)]);
      && id in s.t.running && id in s.t.buffers
      && moved.Some? && moved.value.t == Stored(Withdrawn(s.t, id), id, s.t.buffers[id])
  {
    RunKeepsInv(actions);
    var s := Run(actions).value;
    assert PlaceOk(s, id);
    var one, two := actions + [Withdraw(id)], actions + [Withdraw(id)] + [Copy(id)];
    var three := two + [Store(id)];
    assert one[..|one| - 1] == actions && two[..|two| - 1] == one && three[..|three| - 1] == two;
    assert Run(one) == Some(Apply(s, Withdraw(id)));
    assert Run(two) == Some(Apply(Run(one).value, Copy(id)));
    assert Run(three) == Some(Apply(Run(two).value, Store(id)));
  }
}
