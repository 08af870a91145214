/**
 What a traffic-light controller does over time: the scheduler firing its pending callbacks one
 after another, earliest first, and the notifications that this produces.
 */
module TrafficLightTrace {
  import opened TrafficLightControl

  /** The state after the scheduler has taken `n` steps from `st`. */
  function Run(durations: map<State, int>, automatic: bool, st: Snapshot, n: nat): (r: Snapshot)
    requires Complete(durations)
    ensures |r.broadcasts| >= |st.broadcasts| && r.broadcasts[..|st.broadcasts|] == st.broadcasts
    decreases n
  {
    if n == 0 then st else Run(durations, automatic, Fire(durations, automatic, st), n - 1)
  }

  /**
   The `n` notifications of a light that enters `s` at time `t` and from then on keeps switching
   to the other colour once the duration of the current one has elapsed.
   */
  function Cycle(durations: map<State, int>, s: State, t: int, n: nat): seq<Notification>
    requires Complete(durations)
    decreases n
  {
    if n == 0 then [] else [Notification(s, t)] + Cycle(durations, Inverse(s), t + durations[s], n - 1)
  }

  /**
   `Cycle` starts with `s` at `t`; each next notification carries the other colour, and comes
   exactly the duration of the earlier colour after it.
   */
  lemma {:induction false} CycleAlternates(durations: map<State, int>, s: State, t: int, n: nat)
    requires Complete(durations)
    ensures |Cycle(durations, s, t, n)| == n
    ensures n > 0 ==> Cycle(durations, s, t, n)[0] == Notification(s, t)
    ensures forall k :: 0 <= k < n - 1 ==>
      var c := Cycle(durations, s, t, n);
      c[k + 1].state == Inverse(c[k].state) && c[k + 1].time == c[k].time + durations[c[k].state]
    decreases n
  {
    if n > 0 {
      var c := Cycle(durations, s, t, n);
      var rest := Cycle(durations, Inverse(s), t + durations[s], n - 1);
      CycleAlternates(durations, Inverse(s), t + durations[s], n - 1);
      assert c == [Notification(s, t)] + rest;
      forall k | 0 <= k < n - 1
        ensures c[k + 1].state == Inverse(c[k].state) && c[k + 1].time == c[k].time + durations[c[k].state]
      {
        if k > 0 {
          assert c[k] == rest[k - 1] && c[k + 1] == rest[k];
        }
      }
    }
  }

  /** The colours of `Cycle` strictly alternate from `s`: even positions show `s`, odd ones its inverse. */
  lemma {:induction false} CycleParity(durations: map<State, int>, s: State, t: int, n: nat, k: nat)
    requires Complete(durations)
    requires k < n
    ensures |Cycle(durations, s, t, n)| == n
    ensures Cycle(durations, s, t, n)[k].state == if k % 2 == 0 then s else Inverse(s)
    decreases n
  {
    CycleAlternates(durations, s, t, n);
    if k > 0 {
      CycleParity(durations, Inverse(s), t + durations[s], n - 1, k - 1);
      InverseInvolutive(s);
    }
  }

  /**
   The automatic-change invariant: the light shows a colour and exactly one callback is pending,
   which enters the other colour once the duration of the current colour has elapsed.
   */
  predicate Cycling(durations: map<State, int>, st: Snapshot)
    requires Complete(durations)
  {
    && st.current.Some?
    && |st.pending| == 1
    && st.pending[0] == Event(st.now + durations[st.current.value], Inverse(st.current.value))
  }

  /**
   With automatic change on, firing the only pending callback enters the colour it targets,
   broadcasts it at its due time and keeps the invariant.
   */
  lemma FireKeepsCycling(durations: map<State, int>, st: Snapshot)
    requires Complete(durations)
    requires |st.pending| == 1
    ensures
      var r := Fire(durations, true, st);
      var e := st.pending[0];
      && Cycling(durations, r)
      && r.current == Some(e.target) && r.now == e.time
      && r.pending[0] == Event(e.time + durations[e.target], Inverse(e.target))
      && r.broadcasts == st.broadcasts + [Notification(e.target, e.time)]
  {
  }

  /** `n > 0` scheduler steps are one step followed by `n - 1` more. */
  lemma RunStep(durations: map<State, int>, automatic: bool, st: Snapshot, n: nat)
    requires Complete(durations)
    requires n > 0
    ensures Run(durations, automatic, st, n) == Run(durations, automatic, Fire(durations, automatic, st), n - 1)
  {
  }

  /** A non-empty cycle is its first notification followed by the cycle from the other colour. */
  lemma CycleStep(durations: map<State, int>, s: State, t: int, n: nat)
    requires Complete(durations)
    requires n > 0
    ensures Cycle(durations, s, t, n) == [Notification(s, t)] + Cycle(durations, Inverse(s), t + durations[s], n - 1)
  {
  }

  /** Appending `b` and then `c` is appending `b + c`. */
  lemma AppendAssociative<T>(a: seq<T>, b: seq<T>, c: seq<T>)
    ensures (a + b) + c == a + (b + c)
  {
  }

  /**
   From any state with a single pending callback, `n` automatic steps broadcast the first `n`
   notifications of the cycle that callback starts, and, after at least one step, the invariant holds.
   */
  lemma {:induction false} RunFromSinglePending(durations: map<State, int>, st: Snapshot, n: nat)
    requires Complete(durations)
    requires |st.pending| == 1
    ensures Run(durations, true, st, n).broadcasts ==
      st.broadcasts + Cycle(durations, st.pending[0].target, st.pending[0].time, n)
    ensures n > 0 ==> Cycling(durations, Run(durations, true, st, n))
    decreases n
  {
    if n > 0 {
      var e := st.pending[0];
      var next := Fire(durations, true, st);
      FireKeepsCycling(durations, st);
      RunStep(durations, true, st, n);
      RunFromSinglePending(durations, next, n - 1);
      var tail := Cycle(durations, Inverse(e.target), e.time + durations[e.target], n - 1);
      CycleStep(durations, e.target, e.time, n);
      AppendAssociative(st.broadcasts, [Notification(e.target, e.time)], tail);
      if n == 1 {
        assert Run(durations, true, next, 0) == next;
      }
      assert Cycling(durations, Run(durations, true, next, n - 1));
    }
  }

  /**
   A controller built with automatic change on, entering `initial` at `start`: `n` scheduler steps
   broadcast exactly the first `n` notifications of the alternating cycle from `initial` at `start`,
   and after the first transition exactly one callback, entering the inverse colour, is pending.
   */
  lemma AutomaticTrace(durations: map<State, int>, start: int, initial: State, n: nat)
    requires Complete(durations)
    ensures Run(durations, true, Constructed(start, true, initial), n).broadcasts == Cycle(durations, initial, start, n)
    ensures n > 0 ==> Cycling(durations, Run(durations, true, Constructed(start, true, initial), n))
  {
    RunFromSinglePending(durations, Constructed(start, true, initial), n);
  }

  /** The first four entries of the cycle of red lasting 5 and green 3, from red at `start`. */
  lemma CycleRedFiveGreenThree(durations: map<State, int>, start: int)
    requires durations == map[Red := 5, Green := 3]
    requires Complete(durations)
    ensures Cycle(durations, Red, start, 4) ==
      [Notification(Red, start), Notification(Green, start + 5), Notification(Red, start + 8), Notification(Green, start + 13)]
  {
    assert Cycle(durations, Red, start + 8, 2) == [Notification(Red, start + 8)] + Cycle(durations, Green, start + 13, 1);
    assert Cycle(durations, Green, start + 5, 3) == [Notification(Green, start + 5)] + Cycle(durations, Red, start + 8, 2);
    assert Cycle(durations, Red, start, 4) == [Notification(Red, start)] + Cycle(durations, Green, start + 5, 3);
  }

  /**
   Red lasting 5 and green 3, starting red at `start`, an automatic light broadcasts red at
   `start`, green 5 later, red 8 later and green 13 later.
   */
  lemma ScenarioRedFiveGreenThree(durations: map<State, int>, start: int)
    requires durations == map[Red := 5, Green := 3]
    ensures Complete(durations)
    ensures Run(durations, true, Constructed(start, true, Red), 4).broadcasts ==
      [Notification(Red, start), Notification(Green, start + 5), Notification(Red, start + 8), Notification(Green, start + 13)]
  {
    forall s: State ensures s in durations {
      if s.Red? { } else { }
    }
    AutomaticTrace(durations, start, Red, 4);
    CycleRedFiveGreenThree(durations, start);
  }

  /**
   With automatic change off and nothing pending, the scheduler has nothing of the controller's
   to run: any number of steps changes nothing and broadcasts nothing.
   */
  lemma {:induction false} ManualIdle(durations: map<State, int>, st: Snapshot, n: nat)
    requires Complete(durations)
    requires st.pending == []
    ensures Run(durations, false, st, n) == st
  {
    if n > 0 {
      ManualIdle(durations, Fire(durations, false, st), n - 1);
    }
  }

  /**
   A controller built with automatic change off stays unset and silent until `changeState` is
   called; each such call broadcasts once at the current time and schedules nothing, and
   `n` scheduler steps after it change nothing more.
   */
  lemma ManualChange(durations: map<State, int>, start: int, initial: State, s: State, n: nat)
    requires Complete(durations)
    ensures Run(durations, false, Constructed(start, false, initial), n) == Constructed(start, false, initial)
    ensures
      var after := ChangeStep(durations, false, Constructed(start, false, initial), s);
      after.broadcasts == [Notification(s, start)] && after.pending == [] &&
      Run(durations, false, after, n) == after
  {
  }

  /** Changing to the same colour twice is not suppressed: both calls broadcast. */
  lemma RepeatedStateNotSuppressed(durations: map<State, int>, automatic: bool, st: Snapshot, s: State)
    requires Complete(durations)
    ensures
      var twice := ChangeStep(durations, automatic, ChangeStep(durations, automatic, st, s), s);
      twice.current == Some(s) &&
      twice.broadcasts == st.broadcasts + [Notification(s, st.now), Notification(s, st.now)]
  {
  }

  /**
   `changeState` is public: an outside call while automatic change is on starts a second chain of
   callbacks beside the scheduler's own. From any state of the automatic cycle, an outside
   `changeState` to the colour already shown leaves two identical callbacks pending, due at the
   same time, and (durations being non-negative, as the constructor demands) the next two
   scheduler steps broadcast the other colour twice at that time.
   */
  lemma ExternalChangeAddsSecondChain(durations: map<State, int>, st: Snapshot)
    requires Complete(durations) && durations[Red] >= 0 && durations[Green] >= 0
    requires Cycling(durations, st)
    ensures
      var external := ChangeStep(durations, true, st, st.current.value);
      var e := st.pending[0];
      && external.pending == [e, e]
      && Fire(durations, true, Fire(durations, true, external)).broadcasts ==
           external.broadcasts + [Notification(e.target, e.time), Notification(e.target, e.time)]
  {
    var e := st.pending[0];
    var external := ChangeStep(durations, true, st, st.current.value);
    assert external.pending == [e, e];
    var second := Fire(durations, true, external);
    assert EarliestIndex(external.pending) == 0;
    assert second.broadcasts == external.broadcasts + [Notification(e.target, e.time)];
    assert second.pending[0] == e;
    assert EarliestIndex(second.pending) == 0;
  }
}
