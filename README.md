# Traffic-light controller model

A Dafny model of the traffic-light controller of the Ocava traffic-light simulation
(`TrafficLightController`). The controller is a two-state machine over the colours red and
green. It is built from a configuration that gives the duration of each colour, an
automatic-change flag and an initial colour. `changeState(s)` does three things. It sets the
current colour to `s`. It broadcasts a traffic-light-changed notification. When automatic change
is on, it also asks the discrete-event scheduler to call `changeState(inverse(s))` once the
duration of `s` has elapsed. Built with automatic change on, the controller asks the scheduler
to run `changeState(initial)` straight away, so the light then cycles for ever.

The model has two modules:

- `TrafficLightControl` (`traffic_light_controller.dfy`) holds the colours and their inversion.
  The class `TrafficLightController` has the source's fields: `stateDurations`,
  `automaticChangeEnabled` and `currentState`, which is `None` until the first transition, like
  Java `null`. Its two collaborators are plain fields of the class. The scheduler is a clock
  `now` plus the sequence `pending` of due callbacks (`Event(time, target)`). The notification
  router is the append-only log `broadcasts`, and each `Notification(state, time)` in it records
  the simulated time of its broadcast. The function `View()` gives the whole state as a
  `Snapshot` value. The pure functions `ChangeStep` and `Fire` specify `ChangeState` and the
  scheduler's step `RunNextEvent`.
- `TrafficLightTrace` (`trace.dfy`) runs the scheduler for `n` steps (`Run`) and proves the
  trace properties. With automatic change on, the broadcasts are exactly the alternating
  sequence `Cycle` that starts at the initial colour, and each gap is the duration of the earlier
  colour. As long as only the scheduler calls `changeState`, exactly one callback is pending after
  the first transition, and it targets the inverse of the current colour. `changeState` is public,
  though: an outside call while automatic change is on starts a second chain of callbacks beside
  the scheduler's own. With automatic change off, nothing happens until `changeState` is called,
  and each call broadcasts once and schedules nothing.

## Model

| member | source | states |
|---|---|---|
| `TrafficLightControl.Inverse` | TrafficLightSimulation/src/main/java/com/ocadotechnology/trafficlightsimulation/controller/TrafficLightController.java:37-46 | inversion never returns its input; with two colours this makes it total, mapping red to green and green to red (no unreachable default case remains) |
| `TrafficLightControl.InverseInvolutive` | TrafficLightSimulation/src/main/java/com/ocadotechnology/trafficlightsimulation/controller/TrafficLightController.java:37-46 | inverting twice gives back the colour; `Inverse(Red) == Green` and `Inverse(Green) == Red` |
| `TrafficLightControl.Constructed` | TrafficLightSimulation/src/main/java/com/ocadotechnology/trafficlightsimulation/controller/TrafficLightController.java:61-65 | a new controller has no colour and no broadcasts; with the flag on exactly one callback is pending, due now, entering the initial colour; with the flag off nothing is pending |
| `TrafficLightControl.TrafficLightController.constructor` | TrafficLightSimulation/src/main/java/com/ocadotechnology/trafficlightsimulation/controller/TrafficLightController.java:53-66 | `stateDurations` has exactly the keys red and green, mapped to the red and green intervals; the flag is stored; the state is `Constructed` (one `doNow` callback for the initial colour only when the flag is on) |
| `TrafficLightControl.ChangeStep` | TrafficLightSimulation/src/main/java/com/ocadotechnology/trafficlightsimulation/controller/TrafficLightController.java:68-78 | after `changeState(s)` the colour is `s` whatever it was before; exactly one notification `s`, stamped now, is appended and earlier ones are kept; with the flag on exactly one callback is added, entering `Inverse(s)` at now plus the duration of `s`; with the flag off none is added |
| `TrafficLightControl.TrafficLightController.ChangeState` | TrafficLightSimulation/src/main/java/com/ocadotechnology/trafficlightsimulation/controller/TrafficLightController.java:68-78 | the new state of controller and collaborators is `ChangeStep` of the old one; durations and flag are constants and cannot change |
| `TrafficLightControl.TrafficLightController.DoNow` | TrafficLightSimulation/src/main/java/com/ocadotechnology/trafficlightsimulation/controller/TrafficLightController.java:64 | the scheduler's `doNow` adds one callback for the target, due at the current time |
| `TrafficLightControl.TrafficLightController.DoIn` | TrafficLightSimulation/src/main/java/com/ocadotechnology/trafficlightsimulation/controller/TrafficLightController.java:76 | the scheduler's `doIn` adds one callback for the target, due the non-negative delay after the current time |
| `TrafficLightControl.TrafficLightController.Broadcast` | TrafficLightSimulation/src/main/java/com/ocadotechnology/trafficlightsimulation/controller/TrafficLightController.java:73 | the router's broadcast appends one notification carrying the colour and the current time |
| `TrafficLightControl.EarliestIndex` | TrafficLightSimulation/src/main/java/com/ocadotechnology/trafficlightsimulation/controller/TrafficLightController.java:74-76 | the scheduler picks a pending callback no later than any other, and no earlier-scheduled callback is due at the same time |
| `TrafficLightControl.Fire` | TrafficLightSimulation/src/main/java/com/ocadotechnology/trafficlightsimulation/controller/TrafficLightController.java:74-76 | with nothing pending a step changes nothing; otherwise the clock moves to the time of the earliest pending callback (the first scheduled among equals), the light enters that callback's colour, exactly one notification for it is appended at that time with earlier ones kept, and the pending callbacks become the others in their order followed, with the flag on, by the one entering the inverse colour after the entered colour's duration |
| `TrafficLightControl.TrafficLightController.RunNextEvent` | TrafficLightSimulation/src/main/java/com/ocadotechnology/trafficlightsimulation/controller/TrafficLightController.java:74-76 | reports whether anything was pending, and the new state is `Fire` of the old one |
| `TrafficLightTrace.Run` | TrafficLightSimulation/src/main/java/com/ocadotechnology/trafficlightsimulation/controller/TrafficLightController.java:73 | running the scheduler only ever extends the broadcast log: earlier notifications are never altered |
| `TrafficLightTrace.CycleAlternates` | TrafficLightSimulation/src/main/java/com/ocadotechnology/trafficlightsimulation/controller/TrafficLightController.java:74-76 | the cycle from `s` at `t` has `n` entries and starts with `s` at `t`; each next entry has the other colour and comes exactly the duration of the earlier colour later |
| `TrafficLightTrace.CycleParity` | TrafficLightSimulation/src/main/java/com/ocadotechnology/trafficlightsimulation/controller/TrafficLightController.java:74-76 | the cycle strictly alternates: entry `k` is `s` when `k` is even and the inverse of `s` when odd |
| `TrafficLightTrace.FireKeepsCycling` | TrafficLightSimulation/src/main/java/com/ocadotechnology/trafficlightsimulation/controller/TrafficLightController.java:74-76 | with the flag on and one callback pending, one step broadcasts that callback's colour at its due time, and afterwards exactly one callback is pending, entering the inverse of the current colour after the current colour's duration |
| `TrafficLightTrace.RunFromSinglePending` | TrafficLightSimulation/src/main/java/com/ocadotechnology/trafficlightsimulation/controller/TrafficLightController.java:74-76 | from one pending callback, `n` automatic steps append exactly the first `n` entries of the cycle it starts, and the one-pending-inverse invariant holds after every step |
| `TrafficLightTrace.AutomaticTrace` | TrafficLightSimulation/src/main/java/com/ocadotechnology/trafficlightsimulation/controller/TrafficLightController.java:63-65 | a controller built with the flag on broadcasts, over `n` steps, exactly the alternating cycle from the initial colour at the start time; after the first transition exactly one callback is pending, for the inverse colour |
| `TrafficLightTrace.ScenarioRedFiveGreenThree` | TrafficLightSimulation/src/main/java/com/ocadotechnology/trafficlightsimulation/controller/TrafficLightController.java:56-65 | red lasting 5 and green 3, starting red at time `t`: red at `t`, green at `t + 5`, red at `t + 8`, green at `t + 13` |
| `TrafficLightTrace.ManualIdle` | TrafficLightSimulation/src/main/java/com/ocadotechnology/trafficlightsimulation/controller/TrafficLightController.java:74-77 | with the flag off and nothing pending, any number of scheduler steps changes nothing |
| `TrafficLightTrace.ManualChange` | TrafficLightSimulation/src/main/java/com/ocadotechnology/trafficlightsimulation/controller/TrafficLightController.java:61-77 | with the flag off the controller stays unset and silent under the scheduler; a `changeState(s)` broadcasts exactly `s` at the current time, schedules nothing, and nothing follows it |
| `TrafficLightTrace.ExternalChangeAddsSecondChain` | TrafficLightSimulation/src/main/java/com/ocadotechnology/trafficlightsimulation/controller/TrafficLightController.java:68-76 | while the light cycles automatically, an outside `changeState` to the colour shown leaves two identical callbacks pending, due at the same time, and the next two scheduler steps broadcast the other colour twice at that time |
| `TrafficLightTrace.RepeatedStateNotSuppressed` | TrafficLightSimulation/src/main/java/com/ocadotechnology/trafficlightsimulation/controller/TrafficLightController.java:68-73 | calling `changeState(s)` twice with the same colour broadcasts `s` twice; nothing suppresses the repeat |

## Left out

- The SLF4J logger and its `logger.info` call: output only, with no effect on state.
- The event scheduler is a clock and a list of pending callbacks that belong to this controller only. Callbacks of other simulation components, the scheduler's real ordering and tie-breaking, and the debug label passed to `doIn` are not modelled. The model fires the earliest callback and breaks ties first-in first-out. With automatic change on, and as long as only the scheduler calls `changeState`, only one callback is ever pending, so no ties arise. An outside call to `changeState` while automatic change is on adds a second chain of callbacks, and then ties do arise (`ExternalChangeAddsSecondChain`); the real scheduler's order between them may differ from first-in first-out.
- The scheduler's clock moves only when it fires a callback. Time passing between events for other reasons is not modelled, so an external `changeState` is broadcast at the clock's current reading.
- The notification router is a process-wide singleton that delivers synchronously to subscribers. It is modelled only as an append to the broadcast log. The Java notification carries just the colour; the log also records the simulated time.
- Reading the configuration (`getTime`, `getBoolean`, `getEnum`) and its failures on missing settings are not modelled. The two intervals, the flag and the initial colour are constructor parameters. Java reads the initial colour lazily inside the `doNow` callback. The model takes it when the controller is built, which gives the same colour.
- `TrafficLightControl.TrafficLightController.constructor`: requires both intervals to be non-negative. The Java code does not check this; the scheduler's `doIn` expects a non-negative delay.
- Re-entrant calls are not modelled. Java sets the field `currentState` (line 69), broadcasts synchronously (line 73), and then reads the field again to choose the next colour and its duration (lines 75-76). The model uses `newState` for both. The two differ only if a subscriber calls `changeState` during the broadcast, which a log of broadcasts cannot express.
- Durations and times are unbounded integers. Java `long` overflow of `now + duration` is not modelled.
- `TrafficSimulationStory` is test scaffolding with no controller logic; it is not part of this model.
