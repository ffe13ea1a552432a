/** The log queue between many producers and one writer thread, with its mutex and condition variable. */
module Logger {
  const MAX_QUEUED_ITEMS: nat := 100000

  type Item = string

  /** Where the writer is: no thread, about to test its wait condition, asleep on it, or writing a batch. */
  datatype Writer =
    | Absent
    | Checking
    | Waiting
    | Flushing(batch: seq<Item>, dropped: nat)

  /** How far a call of stop has come: its flag is set, its notification sent. */
  datatype Stop = Idle | Flagged | Joining

  /**
    * What the mutex guards, the threads' positions, and what the outside sees: `notifies` counts
    * producers that have left the mutex but not yet notified; `accepted`, `refused` and `written`
    * record every item offered and every item on file; `reported` and `forgotten` count refused items
    * that a warning line told of, and ones whose count a restart has thrown away.
    */
  datatype State = State(items: seq<Item>, dropped: nat, paused: bool, interrupted: bool,
                         writer: Writer, stop: Stop, notifies: nat,
                         accepted: seq<Item>, refused: nat, written: seq<Item>, reported: nat, forgotten: nat)

  datatype Event =
    | Start
    | Push(item: Item)
    | PushNotifies
    | Pause(on: bool)
    | StopFlags
    | StopNotifies
    | StopReturns
    | WriterLocks
    | WriterWakes
    | WriterWrites

  const FRESH := State([], 0, false, false, Absent, Idle, 0, [], 0, [], 0, 0)

  /** Which threads can move; a thread may wake from its sleep at any time, unasked. */
  predicate Enabled(s: State, e: Event) {
    match e
    case Start => s.writer == Absent && s.stop == Idle
    case Push(_) => true
    case PushNotifies => s.notifies > 0
    case Pause(_) => true
    case StopFlags => s.stop == Idle
    case StopNotifies => s.stop == Flagged
    case StopReturns => s.stop == Joining && s.writer == Absent
    case WriterLocks => s.writer == Checking
    case WriterWakes => s.writer == Waiting
    case WriterWrites => s.writer.Flushing?
  }

  predicate MustWait(s: State) {
    !s.interrupted && (s.paused || s.items == [])
  }

  function Woken(w: Writer): Writer {
    if w == Waiting then Checking else w
  }

  function PushStep(s: State, item: Item): State {
    if |s.items| >= MAX_QUEUED_ITEMS then s.(dropped := s.dropped + 1, refused := s.refused + 1)
    else
      var items := s.items + [item];
      var notify := |items| == 1 && !s.paused;
      s.(items := items, accepted := s.accepted + [item], notifies := s.notifies + if notify then 1 else 0)
  }

  function LockStep(s: State): State {
    if MustWait(s) then s.(writer := Waiting)
    else if s.items == [] then s.(writer := Absent)
    else s.(writer := Flushing(s.items, s.dropped), items := [], dropped := 0)
  }

  function WriteStep(s: State): State
    requires s.writer.Flushing?
  {
    var batch := s.writer.batch;
    if batch != [] then s.(written := s.written + [batch[0]], writer := Flushing(batch[1..], s.writer.dropped))
    else s.(reported := s.reported + s.writer.dropped, writer := Checking)
  }

  function Step(s: State, e: Event): State
    requires Enabled(s, e)
  {
    match e
    case Start => s.(paused := false, interrupted := false, dropped := 0, forgotten := s.forgotten + s.dropped,
        writer := Checking)
    case Push(item) => PushStep(s, item)
    case PushNotifies => s.(notifies := s.notifies - 1, writer := Woken(s.writer))
    case Pause(on) => s.(paused := on, writer := if on then s.writer else Woken(s.writer))
    case StopFlags => s.(paused := false, interrupted := true, stop := Flagged)
    case StopNotifies => s.(stop := Joining, writer := Woken(s.writer))
    case StopReturns => s.(interrupted := false, stop := Idle)
    case WriterLocks => LockStep(s)
    case WriterWakes => s.(writer := Checking)
    case WriterWrites => WriteStep(s)
  }

  ghost predicate IsRun(states: seq<State>, events: seq<Event>) {
    && |states| == |events| + 1 && states[0] == FRESH
    && forall i :: 0 <= i < |events| ==> Enabled(states[i], events[i]) && states[i + 1] == Step(states[i], events[i])
  }

  // ----- The invariant -----

  /** The writer never sleeps through work: if it could go on, someone is about to wake it. */
  predicate NoLostWakeup(s: State) {
    s.writer == Waiting && !MustWait(s) ==> s.notifies > 0 || s.stop == Flagged
  }

  function InHand(w: Writer): seq<Item> {
    if w.Flushing? then w.batch else []
  }

  function Unreported(s: State): nat {
    s.dropped + if s.writer.Flushing? then s.writer.dropped else 0
  }

  /** Nothing accepted is lost, repeated or reordered. */
  predicate InOrder(s: State) {
    s.accepted == s.written + (InHand(s.writer) + s.items)
  }

  predicate Counted(s: State) {
    && s.refused == s.reported + s.forgotten + Unreported(s)
    && |s.items| <= MAX_QUEUED_ITEMS
    && (s.dropped > 0 ==> |s.items| == MAX_QUEUED_ITEMS)
  }

  /** The interrupt flag is up just while a stop is in progress. */
  predicate Flags(s: State) {
    s.interrupted <==> s.stop != Idle
  }

  predicate Inv(s: State) {
    NoLostWakeup(s) && InOrder(s) && Counted(s) && Flags(s)
  }

  lemma {:induction false} OneWritten(written: seq<Item>, batch: seq<Item>, items: seq<Item>)
    requires batch != []
    ensures written + [batch[0]] + (batch[1..] + items) == written + (batch + items)
  {
    assert batch == [batch[0]] + batch[1..];
  }

  lemma {:induction false} WriteKeepsOrder(s: State)
    requires InOrder(s) && s.writer.Flushing?
    ensures InOrder(WriteStep(s))
  {
    if s.writer.batch != [] {
      OneWritten(s.written, s.writer.batch, s.items);
    }
  }

  lemma {:induction false} LockKeepsOrder(s: State)
    requires InOrder(s) && s.writer == Checking
    ensures InOrder(LockStep(s))
  {
    assert [] + s.items == s.items && s.items + [] == s.items;
  }

  lemma {:induction false} PushKeepsOrder(s: State, item: Item)
    requires InOrder(s)
    ensures InOrder(PushStep(s, item))
  {
    assert s.written + (InHand(s.writer) + s.items) + [item] == s.written + (InHand(s.writer) + (s.items + [item]));
  }

  lemma {:induction false} StepKeepsOrder(s: State, e: Event)
    requires InOrder(s) && Enabled(s, e)
    ensures InOrder(Step(s, e))
  {
    hide PushStep, LockStep, WriteStep;
    match e {
      case Push(item) => PushKeepsOrder(s, item);
      case WriterLocks => LockKeepsOrder(s);
      case WriterWrites => WriteKeepsOrder(s);
      case _ => assert InHand(Step(s, e).writer) == InHand(s.writer);
    }
  }

  /** Every step of every thread keeps the invariant. */
  lemma {:induction false} StepKeepsInvariant(s: State, e: Event)
    requires Inv(s) && Enabled(s, e)
    ensures Inv(Step(s, e))
  {
    hide InOrder;
    StepKeepsOrder(s, e);
  }

  lemma {:induction false} RunKeepsInvariant(states: seq<State>, events: seq<Event>, i: nat)
    requires IsRun(states, events) && i < |states|
    ensures Inv(states[i])
  {
    if i > 0 {
      RunKeepsInvariant(states, events, i - 1);
      StepKeepsInvariant(states[i - 1], events[i - 1]);
    }
  }

  // ----- What it means for the log -----

  /** In every run, what is on file is what was accepted, in that order, as far as it goes. */
  lemma {:induction false} WrittenInOrder(states: seq<State>, events: seq<Event>, i: nat)
    requires IsRun(states, events) && i < |states|
    ensures states[i].written <= states[i].accepted
  {
    RunKeepsInvariant(states, events, i);
  }

  /** When the writer leaves, everything accepted so far is on file and every refusal then counted is told of. */
  lemma {:induction false} WriterLeavesNothing(states: seq<State>, events: seq<Event>, i: nat)
    requires IsRun(states, events) && i < |events|
    requires events[i] == WriterLocks && states[i + 1].writer == Absent
    ensures states[i + 1].written == states[i + 1].accepted && states[i + 1].items == []
    ensures states[i + 1].refused == states[i + 1].reported + states[i + 1].forgotten
    ensures states[i + 1].interrupted
  {
    RunKeepsInvariant(states, events, i);
    RunKeepsInvariant(states, events, i + 1);
    assert [] + states[i + 1].items == [];
  }

  /** A writer that sleeps although it has something to do is about to be woken. */
  lemma {:induction false} SleepersAreWoken(states: seq<State>, events: seq<Event>, i: nat)
    requires IsRun(states, events) && i < |states|
    requires states[i].writer == Waiting && (states[i].interrupted || (!states[i].paused && states[i].items != []))
    ensures (Enabled(states[i], PushNotifies) && Step(states[i], PushNotifies).writer == Checking)
            || (Enabled(states[i], StopNotifies) && Step(states[i], StopNotifies).writer == Checking)
  {
    RunKeepsInvariant(states, events, i);
  }

  // ----- Stopping -----

  /** The moves that bring a stop to its end: the writer's own, and notifications already under way. */
  predicate Closing(s: State, e: Event) {
    Enabled(s, e) && (e == WriterLocks || e == WriterWakes || e == WriterWrites || e == PushNotifies ||
        e == StopNotifies)
  }

  /** A bound on how many such moves are left before the writer is gone. */
  function Distance(s: State): nat {
    3 * |s.items| + s.notifies + (if s.stop == Flagged then 1 else 0) +
    match s.writer
    case Absent => 0
    case Checking => 2
    case Waiting => 3
    case Flushing(batch, _) => 3 + |batch|
  }

  /**
    * Once a stop has begun, and while nothing more is pushed, the writer cannot get stuck: some move
    * is possible, and every move brings it nearer to its end.
    */
  lemma {:induction false} StopsMakeProgress(s: State, e: Event)
    requires Inv(s) && s.interrupted && s.writer != Absent
    ensures Closing(s, WriterLocks) || Closing(s, WriterWrites) || Closing(s, PushNotifies) || Closing(s, StopNotifies)
    ensures Closing(s, e) ==> Distance(Step(s, e)) < Distance(s) && Step(s, e).interrupted
  {
  }

  /** So however the threads are scheduled, the writer has left after that many moves. */
  lemma {:induction false} StopsEnd(states: seq<State>, events: seq<Event>)
    requires |states| == |events| + 1 && Inv(states[0]) && states[0].interrupted
    requires forall i :: 0 <= i < |events| ==>
            Closing(states[i], events[i]) && states[i + 1] == Step(states[i], events[i])
    requires |events| > Distance(states[0])
    ensures exists i :: 0 <= i < |states| && states[i].writer == Absent
    decreases |events|
  {
    if states[0].writer != Absent {
      StopsMakeProgress(states[0], events[0]);
      StepKeepsInvariant(states[0], events[0]);
      StopsEnd(states[1..], events[1..]);
      var i :| 0 <= i < |states[1..]| && states[1..][i].writer == Absent;
      assert states[i + 1].writer == Absent;
    }
  }
}
