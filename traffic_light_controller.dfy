/**
 A model of the traffic-light controller of the traffic-light simulation: a two-state
 machine that, when automatic change is enabled, re-schedules its own next transition on a
 discrete-event scheduler and broadcasts a notification on every transition.

 The two collaborators of the controller are modelled as plain state:
 - the event scheduler is a simulated clock `now` and a sequence of pending
   `changeState(target)` callbacks, each due at an absolute simulated time;
 - the notification router is an append-only log of the notifications broadcast,
   each stamped with the simulated time at which it was broadcast.
 */
module TrafficLightControl {

  /** The two colours of the light. */
  datatype State = Red | Green

  /** The colour a light switches to from `s`: the only colour other than `s`. */
  function Inverse(s: State): (r: State)
    ensures r != s
  {
    match s
    case Red => Green
    case Green => Red
  }

  /** Inversion is an involution: it swaps the two colours. */
  lemma InverseInvolutive(s: State)
    ensures Inverse(Inverse(s)) == s
    ensures Inverse(Red) == Green && Inverse(Green) == Red
  {
  }

  /** Stands for a field that is unset (Java `null`). */
  datatype Option<T> = None | Some(value: T)

  /** A pending scheduler callback that calls `changeState(target)` at simulated time `time`. */
  datatype Event = Event(time: int, target: State)

  /** A traffic-light-changed notification carrying `state`, broadcast at simulated time `time`. */
  datatype Notification = Notification(state: State, time: int)

  /** The mutable part of a controller together with the state of its two collaborators. */
  datatype Snapshot = Snapshot(current: Option<State>, now: int, pending: seq<Event>, broadcasts: seq<Notification>)

  /** A duration table with an entry for both colours. */
  predicate Complete(durations: map<State, int>)
  {
    forall s: State :: s in durations
  }

  /** What a freshly built controller and its collaborators look like, the scheduler clock reading `start`. */
  function Constructed(start: int, automatic: bool, initial: State): (r: Snapshot)
    ensures r.current == None && r.now == start && r.broadcasts == []
    ensures automatic ==> |r.pending| == 1 && r.pending[0].time == start && r.pending[0].target == initial
    ensures !automatic ==> r.pending == []
  {
    Snapshot(None, start, if automatic then [Event(start, initial)] else [], [])
  }

  /**
   The effect of `changeState(s)`: the light enters `s`, one notification carrying `s` is
   appended to the broadcast log, and, with automatic change on, one callback entering the
   inverse colour is scheduled after the duration of `s`.
   */
  function ChangeStep(durations: map<State, int>, automatic: bool, st: Snapshot, s: State): (r: Snapshot)
    requires Complete(durations)
    ensures r.current == Some(s) && r.now == st.now
    ensures |r.broadcasts| == |st.broadcasts| + 1 && r.broadcasts[..|st.broadcasts|] == st.broadcasts
    ensures r.broadcasts[|st.broadcasts|] == Notification(s, st.now)
    ensures |r.pending| == |st.pending| + (if automatic then 1 else 0)
    ensures r.pending[..|st.pending|] == st.pending
    ensures automatic ==> r.pending[|st.pending|] == Event(st.now + durations[s], Inverse(s))
  {
    var scheduled := if automatic then st.pending + [Event(st.now + durations[s], Inverse(s))] else st.pending;
    Snapshot(Some(s), st.now, scheduled, st.broadcasts + [Notification(s, st.now)])
  }

  /**
   The position of the pending event the scheduler fires next: one with the earliest time,
   and among those the one scheduled first.
   */
  function EarliestIndex(pending: seq<Event>): (i: nat)
    requires pending != []
    ensures i < |pending|
    ensures forall j :: 0 <= j < |pending| ==> pending[i].time <= pending[j].time
    ensures forall j :: 0 <= j < i ==> pending[j].time > pending[i].time
  {
    if |pending| == 1 then 0
    else
      var k := EarliestIndex(pending[1..]);
      if pending[0].time <= pending[k + 1].time then 0 else k + 1
  }

  /**
   One scheduler step: the earliest pending callback is removed, the clock moves to its time and
   the callback runs `changeState` with its target. With nothing pending, nothing happens.
   */
  function Fire(durations: map<State, int>, automatic: bool, st: Snapshot): (r: Snapshot)
    requires Complete(durations)
    ensures st.pending == [] ==> r == st
    ensures st.pending != [] ==>
      && (forall j :: 0 <= j < |st.pending| ==> r.now <= st.pending[j].time)
      && r.current.Some?
      && (exists j :: 0 <= j < |st.pending| && st.pending[j] == Event(r.now, r.current.value))
      && |r.broadcasts| == |st.broadcasts| + 1
      && r.broadcasts[..|st.broadcasts|] == st.broadcasts
      && r.broadcasts[|st.broadcasts|] == Notification(r.current.value, r.now)
    ensures st.pending != [] ==>
      var i := EarliestIndex(st.pending);
      var e := st.pending[i];
      && r.now == e.time
      && r.current == Some(e.target)
      && r.pending == st.pending[..i] + st.pending[i + 1..] +
           (if automatic then [Event(e.time + durations[e.target], Inverse(e.target))] else [])
  {
    if st.pending == [] then st
    else
      var i := EarliestIndex(st.pending);
      var e := st.pending[i];
      ChangeStep(durations, automatic, st.(now := e.time, pending := st.pending[..i] + st.pending[i + 1..]), e.target)
  }

  /** A traffic-light controller, with its scheduler and notification router folded in as fields. */
  class TrafficLightController {
    /** The time the light stays in each colour; fixed at construction. */
    const stateDurations: map<State, int>
    /** Whether the controller re-schedules its own transitions; fixed at construction. */
    const automaticChangeEnabled: bool
    /** The colour the light shows; unset until the first transition. */
    var currentState: Option<State>

    // The event scheduler: its clock and its pending callbacks.
    var now: int
    var pending: seq<Event>

    // The notification router: every notification broadcast so far.
    var broadcasts: seq<Notification>

    ghost predicate Valid()
    {
      Complete(stateDurations) && stateDurations[Red] >= 0 && stateDurations[Green] >= 0
    }

    /** The controller and its collaborators as a value. */
    function View(): Snapshot
      reads this
    {
      Snapshot(currentState, now, pending, broadcasts)
    }

    /**
     Builds the duration table from the two intervals and, with automatic change enabled,
     asks the scheduler to run `changeState(initialState)` now.
     */
    constructor (start: int, redInterval: int, greenInterval: int, automaticChange: bool, initialState: State)
      requires redInterval >= 0 && greenInterval >= 0
      ensures Valid()
      ensures stateDurations.Keys == {Red, Green}
      ensures stateDurations[Red] == redInterval && stateDurations[Green] == greenInterval
      ensures automaticChangeEnabled == automaticChange
      ensures View() == Constructed(start, automaticChange, initialState)
    {
      stateDurations := map[Red := redInterval, Green := greenInterval];
      automaticChangeEnabled := automaticChange;
      currentState := None;
      now := start;
      pending := [];
      broadcasts := [];
      new;
      assert forall s: State :: s in stateDurations by {
        forall s: State ensures s in stateDurations {
          if s.Red? { } else { }
        }
      }
      if automaticChange {
        DoNow(initialState);
      }
    }

    /** The scheduler's `doNow`: a callback entering `target`, due at the current time. */
    method DoNow(target: State)
      modifies this`pending
      ensures pending == old(pending) + [Event(now, target)]
    {
      pending := pending + [Event(now, target)];
    }

    /** The scheduler's `doIn`: a callback entering `target`, due `delay` after the current time. */
    method DoIn(delay: int, target: State)
      requires delay >= 0
      modifies this`pending
      ensures pending == old(pending) + [Event(now + delay, target)]
    {
      pending := pending + [Event(now + delay, target)];
    }

    /** The notification router's `broadcast` of a traffic-light-changed notification. */
    method Broadcast(state: State)
      modifies this`broadcasts
      ensures broadcasts == old(broadcasts) + [Notification(state, now)]
    {
      broadcasts := broadcasts + [Notification(state, now)];
    }

    /**
     Enters `newState` unconditionally (the same colour twice is not suppressed), broadcasts it
     and, with automatic change enabled, schedules the change to the inverse colour after the
     duration of the colour just entered.
     */
    method ChangeState(newState: State)
      requires Valid()
      modifies this
      ensures View() == ChangeStep(stateDurations, automaticChangeEnabled, old(View()), newState)
      ensures currentState == Some(newState) && now == old(now)
      ensures broadcasts == old(broadcasts) + [Notification(newState, now)]
      ensures automaticChangeEnabled ==>
        pending == old(pending) + [Event(now + stateDurations[newState], Inverse(newState))]
      ensures !automaticChangeEnabled ==> pending == old(pending)
    {
      currentState := Some(newState);
      Broadcast(newState);
      if automaticChangeEnabled {
        var nextState := Inverse(newState);
        DoIn(stateDurations[newState], nextState);
      }
    }

    /**
     The scheduler runs its earliest pending callback, if there is one, after moving its clock
     to the callback's time.
     */
    method RunNextEvent() returns (fired: bool)
      requires Valid()
      modifies this
      ensures fired == (old(pending) != [])
      ensures View() == Fire(stateDurations, automaticChangeEnabled, old(View()))
    {
      if pending == [] {
        return false;
      }
      var i := EarliestIndex(pending);
      var e := pending[i];
      pending := pending[..i] + pending[i + 1..];
      now := e.time;
      ChangeState(e.target);
      fired := true;
    }
  }
}
