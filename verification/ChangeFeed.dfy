/**
 * The wake-up protocol of the comment store (apps/penpal/internal/comments/comments.go) and of
 * the `penpal_wait_for_changes` tool built on it: a counter, and a channel that is closed and
 * replaced on every change.
 */
module ChangeFeed {
  import opened Collections
  import opened Runs

  /** Channels are numbered in the order in which they are made. */
  datatype Feed = Feed(seqNo: nat, current: nat, closed: set<nat>)

  const INITIAL_FEED := Feed(0, 0, {})

  /** `NotifyChange`: count, close the current channel, install a new one. */
  function Notified(f: Feed): Feed {
    Feed(f.seqNo + 1, f.current + 1, f.closed + {f.current})
  }

  class Channel {
    var closed: bool

    constructor ()
      ensures !closed
    {
      closed := false;
    }
  }

  class Store {
    var changeSeq: nat
    var changed: Channel
    ghost var made: seq<Channel>

    ghost predicate Valid()
      reads this, made
    {
      && made != [] && made[|made| - 1] == changed
      && Distinct(made)
      && !changed.closed  // closing a closed channel would panic
    }

    ghost function Abs(): Feed
      requires Valid()
      reads this, made
    {
      Feed(changeSeq, |made| - 1, set i | 0 <= i < |made| && made[i].closed)
    }

    constructor ()
      ensures Valid() && Abs() == INITIAL_FEED
    {
      var c := new Channel();
      changeSeq, changed, made := 0, c, [c];
    }

    method NotifyChange()
      requires Valid()
      modifies this, changed
      ensures Valid() && Abs() == Notified(old(Abs()))
      ensures made == old(made) + [changed] && fresh(changed)
    {
      changeSeq := changeSeq + 1;
      changed.closed := true;
      changed := new Channel();
      made := made + [changed];
      assert forall i :: 0 <= i < |made| - 1 ==> made[i] == old(made[i]);
    }

    /** The locked first half of `WaitForChangeSince`: an answer, or the channel to sleep on. */
    method Poll(sinceSeq: nat) returns (answer: Option<nat>, sleepOn: Channel)
      requires Valid()
      ensures answer == if Abs().seqNo > sinceSeq then Some(Abs().seqNo) else None
      ensures sleepOn == made[Abs().current] && !sleepOn.closed
    {
      sleepOn := changed;
      if changeSeq > sinceSeq {
        return Some(changeSeq), sleepOn;
      }
      return None, sleepOn;
    }
  }

  // ---------------------------------------------------------------------------------------
  // Runs: one writer side and any number of clients that keep waiting for what comes next

  /** One answer to a client: it asked since `lo`, was told `hi`, and whether that was a change or a timeout. */
  datatype Answer = Answer(lo: nat, hi: nat, changed: bool)

  datatype Phase = Idle | Asleep(channel: nat, capturedAt: nat) | Woken(capturedAt: nat) | TimedOut

  datatype Client = Client(start: nat, joinedAt: nat, last: nat, phase: Phase, log: seq<Answer>)

  datatype State = State(feed: Feed, clients: map<nat, Client>)

  datatype Action =
    | Notify
    | Join(who: nat, since: nat)
    | Ask(who: nat)      // the locked first half of WaitForChangeSince
    | Wake(who: nat)     // the select takes the closed channel
    | Expire(who: nat)   // the select takes the expired context, possibly with the channel closed too
    | Finish(who: nat)   // the locked read after the select

  const INIT := State(INITIAL_FEED, map[])

  predicate Enabled(s: State, a: Action) {
    match a
    case Notify => true
    case Join(who, _) => who !in s.clients
    case Ask(who) => who in s.clients && s.clients[who].phase.Idle?
    case Wake(who) => who in s.clients && s.clients[who].phase.Asleep? && s.clients[who].phase.channel in s.feed.closed
    case Expire(who) => who in s.clients && s.clients[who].phase.Asleep?
    case Finish(who) => who in s.clients && (s.clients[who].phase.Woken? || s.clients[who].phase.TimedOut?)
  }

  /** A client uses the number it was last given as its next `sinceSeq`. */
  function Answered(c: Client, hi: nat, changed: bool): Client {
    c.(last := hi, phase := Idle, log := c.log + [Answer(c.last, hi, changed)])
  }

  function Apply(s: State, a: Action): State
    requires Enabled(s, a)
  {
    match a
    case Notify => s.(feed := Notified(s.feed))
    case Join(who, since) => s.(clients := s.clients[who := Client(since, s.feed.seqNo, since, Idle, [])])
    case Ask(who) =>
      var c := s.clients[who];
      if s.feed.seqNo > c.last then s.(clients := s.clients[who := Answered(c, s.feed.seqNo, true)])
      else s.(clients := s.clients[who := c.(phase := Asleep(s.feed.current, s.feed.seqNo))])
    case Wake(who) =>
      var c := s.clients[who];
      s.(clients := s.clients[who := c.(phase := Woken(c.phase.capturedAt))])
    case Expire(who) => s.(clients := s.clients[who := s.clients[who].(phase := TimedOut)])
    case Finish(who) =>
      var c := s.clients[who];
      s.(clients := s.clients[who := Answered(c, s.feed.seqNo, c.phase.Woken?)])
  }

  function Step(s: State, a: Action): Option<State> {
    if Enabled(s, a) then Some(Apply(s, a)) else None
  }

  function Run(actions: seq<Action>): Option<State> {
    RunFrom(Step, INIT, actions)
  }

  ghost predicate Reachable(s: State) {
    exists actions :: Run(actions) == Some(s)
  }

  // ---------------------------------------------------------------------------------------

  /** The channel made at sequence number `n` is number `n`, and is closed iff `n` is in the past. */
  ghost predicate FeedOk(f: Feed) {
    f.current == f.seqNo && forall ch :: ch in f.closed <==> 0 <= ch < f.seqNo
  }

  /** Where the client stood before answer `i`. */
  ghost function Before(c: Client, i: nat): nat
    requires i <= |c.log|
  {
    if i == 0 then c.start else c.log[i - 1].hi
  }

  /** The answers join up, from where the client started to where it is. */
  ghost predicate Chained(c: Client) {
    && (forall i :: 0 <= i < |c.log| ==> c.log[i].lo == Before(c, i))
    && c.last == Before(c, |c.log|)
  }

  ghost predicate ClientOk(f: Feed, c: Client) {
    && Chained(c)
    && c.joinedAt <= f.seqNo
    && (c.phase.Asleep? ==> c.phase.channel == c.phase.capturedAt <= f.seqNo)
    && (c.phase.Woken? ==> c.phase.capturedAt < f.seqNo)
    && (c.start <= c.joinedAt ==> InStep(f, c))
  }

  /** For a client that did not start in the future. */
  ghost predicate InStep(f: Feed, c: Client) {
    && c.last <= f.seqNo
    && (c.phase.Asleep? || c.phase.Woken? ==> c.phase.capturedAt == c.last)
    && forall i :: 0 <= i < |c.log| ==>
      if c.log[i].changed then c.log[i].lo < c.log[i].hi else c.log[i].lo <= c.log[i].hi
  }

  ghost predicate Inv(s: State) {
    FeedOk(s.feed) && forall who :: who in s.clients ==> ClientOk(s.feed, s.clients[who])
  }

  lemma ChangeKeepsClient(f: Feed, c: Client)
    requires ClientOk(f, c)
    ensures ClientOk(Notified(f), c)
  {
  }

  /** An answer to a client that is about to learn something, or whose wait has expired. */
  lemma AnswerKeepsClient(f: Feed, c: Client, changed: bool)
    requires ClientOk(f, c)
    requires changed ==> c.last < f.seqNo || (c.phase.Woken? && c.phase.capturedAt < f.seqNo)
    ensures ClientOk(f, Answered(c, f.seqNo, changed))
  {
    var c' := Answered(c, f.seqNo, changed);
    forall i | 0 <= i < |c'.log| ensures c'.log[i].lo == Before(c', i) {
      assert Before(c', i) == Before(c, i);
      if i < |c.log| { assert c'.log[i] == c.log[i]; }
    }
    if c.start <= c.joinedAt {
      forall i | 0 <= i < |c.log| ensures c'.log[i] == c.log[i] {}
    }
  }

  lemma AskKeepsClient(f: Feed, c: Client)
    requires FeedOk(f) && ClientOk(f, c)
    ensures ClientOk(f,
      if f.seqNo > c.last then Answered(c, f.seqNo, true) else c.(phase := Asleep(f.current, f.seqNo)))
  {
    if f.seqNo > c.last { AnswerKeepsClient(f, c, true); }
  }

  lemma StepKeepsClient(s: State, a: Action, who: nat)
    requires Inv(s) && Enabled(s, a) && who in Apply(s, a).clients
    ensures ClientOk(Apply(s, a).feed, Apply(s, a).clients[who])
  {
    if who in s.clients {
      var c := s.clients[who];
      assert ClientOk(s.feed, c);
      match a
      case Notify => ChangeKeepsClient(s.feed, c);
      case Join(_, _) =>
      case Ask(w) => if w == who { AskKeepsClient(s.feed, c); }
      case Wake(_) =>
      case Expire(_) =>
      case Finish(w) => if w == who { AnswerKeepsClient(s.feed, c, c.phase.Woken?); }
    }
  }

  lemma StepKeepsInv(s: State, a: Action)
    requires Inv(s) && Enabled(s, a)
    ensures Inv(Apply(s, a))
  {
    forall who | who in Apply(s, a).clients ensures ClientOk(Apply(s, a).feed, Apply(s, a).clients[who]) {
      StepKeepsClient(s, a, who);
    }
  }

  lemma RunKeepsInv(actions: seq<Action>)
    requires Run(actions).Some?
    ensures Inv(Run(actions).value)
  {
    forall s, a | Inv(s) && Step(s, a).Some? ensures Inv(Step(s, a).value) {
      StepKeepsInv(s, a);
    }
    RunKeeps(Step, Inv, INIT, actions);
  }

  /**
   * No lost wake-up: the channel a sleeper captured at sequence number `n` is closed exactly when
   * the current number exceeds `n`; so a sleeper with something to learn can always be woken.
   */
  lemma CapturedChannelClosedIffChanged(s: State, who: nat)
    requires Reachable(s) && who in s.clients && s.clients[who].phase.Asleep?
    ensures s.clients[who].phase.channel in s.feed.closed <==> s.feed.seqNo > s.clients[who].phase.capturedAt
    ensures s.clients[who].start <= s.clients[who].joinedAt ==>
      (Enabled(s, Wake(who)) <==> s.feed.seqNo > s.clients[who].last)
  {
    var actions :| Run(actions) == Some(s);
    RunKeepsInv(actions);
    assert ClientOk(s.feed, s.clients[who]);
  }

  /** A successful wait by a client that is not ahead of the feed returns something newer. */
  lemma SuccessfulWaitAdvances(s: State, who: nat, i: nat)
    requires Reachable(s) && who in s.clients && i < |s.clients[who].log|
    requires s.clients[who].start <= s.clients[who].joinedAt && s.clients[who].log[i].changed
    ensures s.clients[who].log[i].lo < s.clients[who].log[i].hi <= s.clients[who].last
  {
    var actions :| Run(actions) == Some(s);
    RunKeepsInv(actions);
    assert ClientOk(s.feed, s.clients[who]);
    LaterAnswers(s.feed, s.clients[who], i);
  }

  lemma {:induction false} LaterAnswers(f: Feed, c: Client, i: nat)
    requires Chained(c) && InStep(f, c) && i < |c.log|
    ensures c.log[i].hi <= c.last
    decreases |c.log| - i
  {
    if i + 1 == |c.log| {
    } else {
      LaterAnswers(f, c, i + 1);
    }
  }

  ghost predicate FallsIn(n: nat, a: Answer) { a.lo < n <= a.hi }

  /** Some answer covers change `n`. */
  ghost predicate Told(c: Client, n: nat) {
    exists i :: 0 <= i < |c.log| && FallsIn(n, c.log[i])
  }

  /** Different answers cover different changes. */
  ghost predicate NoneToldTwice(c: Client, n: nat) {
    forall i, j :: 0 <= i < |c.log| && 0 <= j < |c.log| && FallsIn(n, c.log[i]) && FallsIn(n, c.log[j]) ==> i == j
  }

  lemma ToldIffPassed(f: Feed, c: Client, n: nat)
    requires Chained(c) && InStep(f, c)
    ensures c.start < n <= c.last <==> Told(c, n)
  {
    if c.start < n <= c.last {
      var i := AnswerFor(f, c, n, |c.log|);
    }
    forall i | 0 <= i < |c.log| && FallsIn(n, c.log[i]) ensures c.start < n <= c.last {
      LaterAnswers(f, c, i);
      EarlierAnswers(f, c, i);
    }
  }

  lemma ToldOnce(f: Feed, c: Client, n: nat)
    requires Chained(c) && InStep(f, c)
    ensures NoneToldTwice(c, n)
  {
    forall i, j | 0 <= i < j < |c.log| && FallsIn(n, c.log[i]) ensures !FallsIn(n, c.log[j]) {
      Disjoint(f, c, i, j);
    }
  }

  /** The answers given to a client partition the changes between where it started and where it is. */
  lemma AnswersPartitionChanges(s: State, who: nat, n: nat)
    requires Reachable(s) && who in s.clients
    requires s.clients[who].start <= s.clients[who].joinedAt
    ensures s.clients[who].start < n <= s.clients[who].last <==> Told(s.clients[who], n)
    ensures NoneToldTwice(s.clients[who], n)
  {
    var actions :| Run(actions) == Some(s);
    RunKeepsInv(actions);
    assert ClientOk(s.feed, s.clients[who]);
    ToldIffPassed(s.feed, s.clients[who], n);
    ToldOnce(s.feed, s.clients[who], n);
  }

  lemma {:induction false} AnswerFor(f: Feed, c: Client, n: nat, k: nat) returns (i: nat)
    requires Chained(c) && InStep(f, c) && 0 < k <= |c.log|
    requires c.start < n <= c.log[k - 1].hi
    ensures i < k && FallsIn(n, c.log[i])
    decreases k
  {
    assert c.log[k - 1].lo == Before(c, k - 1);
    if c.log[k - 1].lo < n {
      i := k - 1;
    } else {
      i := AnswerFor(f, c, n, k - 1);
    }
  }

  lemma {:induction false} EarlierAnswers(f: Feed, c: Client, i: nat)
    requires Chained(c) && InStep(f, c) && i < |c.log|
    ensures c.start <= c.log[i].lo
    decreases i
  {
    if i == 0 {
    } else {
      EarlierAnswers(f, c, i - 1);
      assert c.log[i - 1].lo <= c.log[i - 1].hi;
    }
  }

  lemma {:induction false} Disjoint(f: Feed, c: Client, i: nat, j: nat)
    requires Chained(c) && InStep(f, c) && i < j < |c.log|
    ensures c.log[i].hi <= c.log[j].lo
    decreases j
  {
    if i == j - 1 {
    } else {
      Disjoint(f, c, i, j - 1);
    }
  }

  /** Change `n` was reported to the client as a change. */
  ghost predicate Announced(c: Client, n: nat) {
    exists i :: 0 <= i < |c.log| && c.log[i].changed && FallsIn(n, c.log[i])
  }

  // ---------------------------------------------------------------------------------------
  // When a change is never announced, read off the steps

  /** A change has come since the client's last `Ask`. */
  ghost predicate ChangedSinceAsk(actions: seq<Action>, who: nat) {
    actions != [] &&
    match actions[|actions| - 1]
    case Notify => true
    case a => a != Ask(who) && ChangedSinceAsk(actions[..|actions| - 1], who)
  }

  /** The client's wait has taken its timeout since its last `Ask`. */
  ghost predicate ExpiredSinceAsk(actions: seq<Action>, who: nat) {
    actions != [] &&
    var a := actions[|actions| - 1];
    a == Expire(who) || (a != Ask(who) && ExpiredSinceAsk(actions[..|actions| - 1], who))
  }

  /** Some wait of the client took its timeout, and a change came between its `Ask` and its `Finish`. */
  ghost predicate TimeoutOverlooks(actions: seq<Action>, who: nat) {
    actions != [] &&
    var before := actions[..|actions| - 1];
    || TimeoutOverlooks(before, who)
    || (actions[|actions| - 1] == Finish(who) && ExpiredSinceAsk(before, who) && ChangedSinceAsk(before, who))
  }

  /** Some answer was no change to the client and yet moved its number on. */
  ghost predicate Moved(c: Client) {
    exists i :: 0 <= i < |c.log| && !c.log[i].changed && c.log[i].lo != c.log[i].hi
  }

  /** How a client's phase and log follow from the steps taken, if it did not start in the future. */
  ghost predicate HistoryOk(actions: seq<Action>, s: State, who: nat) {
    if who !in s.clients then !TimeoutOverlooks(actions, who)
    else
      var c := s.clients[who];
      c.start <= c.joinedAt ==>
        && (Moved(c) <==> TimeoutOverlooks(actions, who))
        && (c.phase.Idle? || (s.feed.seqNo != c.last <==> ChangedSinceAsk(actions, who)))
        && (c.phase.Asleep? || c.phase.Woken? ==> !ExpiredSinceAsk(actions, who))
        && (c.phase.TimedOut? ==> ExpiredSinceAsk(actions, who))
  }

  lemma MovedByAnswer(c: Client, hi: nat, changed: bool)
    ensures Moved(Answered(c, hi, changed)) <==> Moved(c) || (!changed && c.last != hi)
  {
    var log := Answered(c, hi, changed).log;
    assert forall i :: 0 <= i < |c.log| ==> log[i] == c.log[i];
    assert log[|c.log|] == Answer(c.last, hi, changed);
  }

  lemma StepKeepsHistory(before: seq<Action>, a: Action, s: State, who: nat)
    requires Inv(s) && Enabled(s, a) && HistoryOk(before, s, who)
    ensures HistoryOk(before + [a], Apply(s, a), who)
  {
    assert (before + [a])[..|before|] == before;
    if who in s.clients {
      var c := s.clients[who];
      assert ClientOk(s.feed, c);
      MovedByAnswer(c, s.feed.seqNo, true);
      MovedByAnswer(c, s.feed.seqNo, false);
    }
  }

  lemma {:induction false} RunKeepsHistory(actions: seq<Action>, who: nat)
    requires Run(actions).Some?
    ensures HistoryOk(actions, Run(actions).value, who)
  {
    if actions == [] {
    } else {
      var before, a := actions[..|actions| - 1], actions[|actions| - 1];
      RunKeepsHistory(before, who);
      RunKeepsInv(before);
      StepKeepsHistory(before, a, Run(before).value, who);
      assert before + [a] == actions;
    }
  }

  /** Successful answers announce every change iff no other answer moved the number. */
  lemma AnnouncedIffNotMoved(f: Feed, c: Client)
    requires Chained(c) && InStep(f, c)
    ensures (forall n: nat :: c.start < n <= c.last ==> Announced(c, n)) <==> !Moved(c)
  {
    if i :| 0 <= i < |c.log| && !c.log[i].changed && c.log[i].lo != c.log[i].hi {
      var n := c.log[i].hi;
      assert FallsIn(n, c.log[i]);
      ToldIffPassed(f, c, n);
      ToldOnce(f, c, n);
      assert !Announced(c, n);
    } else {
      forall n: nat | c.start < n <= c.last ensures Announced(c, n) {
        ToldIffPassed(f, c, n);
      }
    }
  }

  /**
   * A client hears of every change by successful answers exactly when no change came between the
   * `Ask` and the `Finish` of a wait that took its timeout. Such a wait answers with the current
   * number, and the tool hands it to the client.
   */
  lemma NothingMissedIffNoTimeoutOverlooks(actions: seq<Action>, who: nat)
    requires Run(actions).Some? && who in Run(actions).value.clients
    requires Run(actions).value.clients[who].start <= Run(actions).value.clients[who].joinedAt
    ensures var c := Run(actions).value.clients[who];
      (forall n: nat :: c.start < n <= c.last ==> Announced(c, n)) <==> !TimeoutOverlooks(actions, who)
  {
    var s := Run(actions).value;
    RunKeepsInv(actions);
    RunKeepsHistory(actions, who);
    assert ClientOk(s.feed, s.clients[who]);
    AnnouncedIffNotMoved(s.feed, s.clients[who]);
  }

  /** Such a run: the change arrives while the select is about to take the expired context. */
  lemma TimeoutCanSwallowAChange()
    ensures exists s :: Reachable(s) && 0 in s.clients && s.clients[0].last == 1 && !Announced(s.clients[0], 1)
  {
    var s1 := Apply(INIT, Join(0, 0));
    RunExtends(Step, INIT, [], Join(0, 0));
    var s2 := Apply(s1, Ask(0));
    RunExtends(Step, INIT, [Join(0, 0)], Ask(0));
    var s3 := Apply(s2, Notify);
    RunExtends(Step, INIT, [Join(0, 0)] + [Ask(0)], Notify);
    var s4 := Apply(s3, Expire(0));
    RunExtends(Step, INIT, [Join(0, 0)] + [Ask(0)] + [Notify], Expire(0));
    var s5 := Apply(s4, Finish(0));
    RunExtends(Step, INIT, [Join(0, 0)] + [Ask(0)] + [Notify] + [Expire(0)], Finish(0));
    assert s5.clients[0].log == [Answer(0, 1, false)];
    var actions := [Join(0, 0)] + [Ask(0)] + [Notify] + [Expire(0)] + [Finish(0)];
    assert Run(actions) == Some(s5);
    assert Reachable(s5);
  }
}
