/** What the log's queue promises its callers, move by move and over whole runs. */
module LoggerOutcomes {
  import opened Logger

  /**
    * An item is queued while fewer than a hundred thousand are, and counted as refused from then on.
    * The producer that ends the queue's emptiness, and no other, owes the writer a notification.
    */
  lemma {:induction false} PushOutcome(s: State, item: Item)
    ensures var t := Step(s, Push(item));
      if |s.items| < 100000 then
        && t.items == s.items + [item] && t.accepted == s.accepted + [item]
        && (t.refused, t.dropped) == (s.refused, s.dropped)
        && t.notifies == s.notifies + (if s.items == [] && !s.paused then 1 else 0)
        && (t.writer, t.written) == (s.writer, s.written)
      else
        && (t.items, t.accepted, t.written) == (s.items, s.accepted, s.written)
        && (t.notifies, t.writer) == (s.notifies, s.writer)
        && t.refused == s.refused + 1 && t.dropped == s.dropped + 1
  {
  }

  /** Of every item offered it is known whether it was accepted or refused. */
  function Offered(events: seq<Event>): nat {
    if events == [] then 0
    else Offered(events[..|events| - 1]) + if events[|events| - 1].Push? then 1 else 0
  }

  lemma {:induction false} EveryItemIsAccountedFor(states: seq<State>, events: seq<Event>)
    requires IsRun(states, events)
    ensures |states[|events|].accepted| + states[|events|].refused == Offered(events)
  {
    if events != [] {
      var n := |events| - 1;
      EveryItemIsAccountedFor(states[..n + 1], events[..n]);
      assert states[n + 1] == Step(states[n], events[n]);
    }
  }

  /**
    * The writer that has the mutex never goes round in a circle: it sleeps, leaves or has work. It
    * sleeps exactly if nothing stops it and the log is paused or empty, leaves exactly if it is stopped
    * with nothing queued, and else takes all there is.
    */
  lemma {:induction false} WriterNeverSpins(s: State)
    requires s.writer == Checking
    ensures var t := Step(s, WriterLocks);
      && (t.writer.Waiting? || t.writer.Absent? || (t.writer.Flushing? && t.writer.batch != []))
      && (t.writer.Waiting? <==> !s.interrupted && (s.paused || s.items == []))
      && (t.writer.Absent? <==> s.interrupted && s.items == [])
      && (t.writer.Flushing? ==> t.writer == Flushing(s.items, s.dropped) && t.items == [] && t.dropped == 0)
      && (!t.writer.Flushing? ==> t.items == s.items && t.dropped == s.dropped)
  {
  }

  /** A new writer begins in a log that is neither paused nor stopped, and at once takes what was left over. */
  lemma {:induction false} RestartOutcome(s: State)
    requires Inv(s) && Enabled(s, Start)
    ensures s.writer == Absent
    ensures var t := Step(s, Start);
      && !t.paused && !t.interrupted && t.items == s.items && Enabled(t, WriterLocks)
      && (if s.items != [] then Step(t, WriterLocks).writer == Flushing(s.items, 0)
          else Step(t, WriterLocks).writer == Waiting)
  {
  }

  /** Nothing is taken from a paused log; letting it go on wakes the writer, which then takes what is queued.
      A pause does not outlive the beginning of a stop. */
  lemma {:induction false} PauseOutcome(s: State)
    requires s.writer == Waiting && !s.interrupted
    ensures var p := Step(s, Pause(true));
      && p.paused && p.writer == Waiting && p.items == s.items && Step(Step(p, WriterWakes), WriterLocks) == p
      && (s.stop == Idle ==> !Step(p, StopFlags).paused)
    ensures var r := Step(s, Pause(false));
      && !r.paused && Enabled(r, WriterLocks)
      && (s.items != [] ==> Step(r, WriterLocks).writer == Flushing(s.items, s.dropped))
  {
  }

  // ----- A stop -----

  /** A stop raises its flag, notifies, and returns once there is no writer. There is one at a time. */
  lemma {:induction false} StopOutcome(s: State)
    requires Enabled(s, StopFlags)
    ensures var flagged := Step(s, StopFlags);
      && !Enabled(flagged, StopFlags) && !Enabled(flagged, StopReturns) && Enabled(flagged, StopNotifies)
      && var notified := Step(flagged, StopNotifies);
         && notified.writer != Waiting && !Enabled(notified, StopFlags) && !Enabled(notified, StopNotifies)
         && (Enabled(notified, StopReturns) <==> notified.writer == Absent)
         && (notified.writer == Absent ==> Enabled(Step(notified, StopReturns), StopFlags))
  {
  }

  /** A stop is in progress, and either its writer is still there or what had been accepted is on file. */
  predicate Flushes(s: State, accepted: seq<Item>) {
    s.stop != Idle && accepted <= s.accepted && (s.writer != Absent || accepted <= s.written)
  }

  lemma {:induction false} AllWritten(s: State)
    requires InOrder(s) && s.items == [] && s.writer == Absent
    ensures s.written == s.accepted
  {
  }

  lemma {:induction false} FlushesOn(s: State, e: Event, accepted: seq<Item>)
    requires Inv(s) && Enabled(s, e) && e != StopReturns && Flushes(s, accepted)
    ensures Flushes(Step(s, e), accepted)
  {
    hide InOrder, Counted, NoLostWakeup;
    StepKeepsInvariant(s, e);
    if e == WriterLocks && Step(s, e).writer == Absent {
      AllWritten(Step(s, e));
    }
  }

  lemma {:induction false} StopHolds(states: seq<State>, events: seq<Event>, j: nat, k: nat)
    requires IsRun(states, events) && j < k <= |events|
    requires events[j] == StopFlags && states[j].writer != Absent
    requires forall i :: j < i < k ==> events[i] != StopReturns
    ensures Flushes(states[k], states[j].accepted)
  {
    hide Inv, Step, Flushes;
    RunKeepsInvariant(states, events, k - 1);
    if j + 1 < k {
      StopHolds(states, events, j, k - 1);
      FlushesOn(states[k - 1], events[k - 1], states[j].accepted);
    } else {
      StopBegins(states[j]);
    }
  }

  lemma {:induction false} StopBegins(s: State)
    requires Enabled(s, StopFlags) && s.writer != Absent
    ensures Flushes(Step(s, StopFlags), s.accepted)
  {
  }

  /** When a stop of a running log returns, everything accepted before the stop is on file, and no writer is left. */
  lemma {:induction false} StopsFlush(states: seq<State>, events: seq<Event>, j: nat, k: nat)
    requires IsRun(states, events) && j < k < |events|
    requires events[j] == StopFlags && states[j].writer != Absent
    requires events[k] == StopReturns && forall i :: j < i < k ==> events[i] != StopReturns
    ensures states[j].accepted <= states[k + 1].written
    ensures states[k + 1].writer == Absent && !states[k + 1].interrupted
  {
    StopHolds(states, events, j, k);
    assert states[k + 1] == Step(states[k], events[k]);
  }
}
