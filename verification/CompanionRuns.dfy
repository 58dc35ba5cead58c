/** Whole runs of the companion: every remark against the history of scenes and against the cap. */
module CompanionRuns {
  import opened Options
  import opened Scenes
  import opened CompanionMemory
  import opened RepetitionHistory
  import opened SlotReservation
  import opened Companion
  import Dice

  datatype Event = Called(call: Call, readings: Readings) | Muted(muted: bool)

  function After(w: World, config: Config, e: Event): Outcome {
    match e
    case Called(call, r) => Observe(w, config, call, r)
    case Muted(muted) => Outcome(w.(slots := w.slots.(muted := muted)), None, None)
  }

  /** The world after a run, and what came of each event. */
  function Trace(w: World, config: Config, events: seq<Event>): (trace: (World, seq<Outcome>))
    ensures |trace.1| == |events|
  {
    if events == [] then (w, [])
    else
      var (before, outcomes) := Trace(w, config, events[..|events| - 1]);
      var last := After(before, config, events[|events| - 1]);
      (last.world, outcomes + [last])
  }

  lemma OneMoreEvent(w: World, config: Config, events: seq<Event>, e: Event)
    ensures var (before, outcomes) := Trace(w, config, events);
            Trace(w, config, events + [e])
            == (After(before, config, e).world, outcomes + [After(before, config, e)])
  {
    assert (events + [e])[..|events|] == events;
  }

  // ---- The watcher's inputs as events ----

  function EventsOf(active: Option<string>, input: Input): seq<Event> {
    match input
    case Polled(detected, noted, at, r, tickNow, tickAt, tickReadings) =>
      (if detected == active then []
       else if detected.Some? then [Called(GameEnter(detected.value, noted, at), r)]
       else [Called(GameExit(noted, at), r)])
      + [Called(Tick(tickNow, tickAt), tickReadings)]
    case Heard(text, noted, at, r) => [Called(AssistantText(text, noted, at), r)]
    case Returned(at, r) => [Called(LongGapReturn(at), r)]
  }

  /** The observer calls that a sequence of polls, texts and home-comings amounts to. */
  function EventsOfAll(x: Watched, config: Config, inputs: seq<Input>): seq<Event> {
    if inputs == [] then []
    else
      var front, last := inputs[..|inputs| - 1], inputs[|inputs| - 1];
      EventsOfAll(x, config, front) + EventsOf(Companion.Run(x, config, front).active, last)
  }

  lemma StepIsTraced(w: World, x: Watched, config: Config, events: seq<Event>, input: Input)
    requires Trace(w, config, events).0 == x.world
    ensures Trace(w, config, events + EventsOf(x.active, input)).0 == Step(x, config, input).world
  {
    var more := EventsOf(x.active, input);
    if |more| == 2 {
      OneMoreEvent(w, config, events, more[0]);
      OneMoreEvent(w, config, events + [more[0]], more[1]);
      assert events + more == (events + [more[0]]) + [more[1]];
    } else {
      OneMoreEvent(w, config, events, more[0]);
      assert events + more == events + [more[0]];
    }
  }

  /** A run of the watcher leaves the world of the trace of its events. */
  lemma {:induction false} RunIsTraced(x: Watched, config: Config, inputs: seq<Input>)
    ensures Companion.Run(x, config, inputs).world == Trace(x.world, config, EventsOfAll(x, config, inputs)).0
  {
    if inputs != [] {
      var front, last := inputs[..|inputs| - 1], inputs[|inputs| - 1];
      RunIsTraced(x, config, front);
      var before := Companion.Run(x, config, front);
      assert Companion.Run(x, config, inputs) == Step(before, config, last);
      StepIsTraced(x.world, before, config, EventsOfAll(x, config, front), last);
    }
  }

  // ---- Remarks and the history of scenes ----

  function EnteredBy(e: Event, outcome: Outcome): seq<Entered> {
    if e.Called? && outcome.transition.Some?
    then [Entered(outcome.transition.value.current, outcome.world.machine.game, e.readings.recordedAt)] else []
  }

  /** The scenes entered in a run. */
  function History(events: seq<Event>, outcomes: seq<Outcome>): seq<Entered>
    requires |events| == |outcomes|
  {
    if events == [] then []
    else
      var n := |events| - 1;
      History(events[..n], outcomes[..n]) + EnteredBy(events[n], outcomes[n])
  }

  lemma TraceOfFront(w: World, config: Config, events: seq<Event>)
    requires events != []
    ensures var n := |events| - 1;
            var (before, outcomes) := Trace(w, config, events[..n]);
            && Trace(w, config, events).1[..n] == outcomes
            && Trace(w, config, events).1[n] == After(before, config, events[n])
            && Trace(w, config, events).0 == After(before, config, events[n]).world
  {
  }

  /** A remark carries the repetition mark exactly when it is made on a transition and the scenes
      entered so far, this one included, make that a repetition. */
  ghost predicate Truthful(blank: Memory, limits: Limits, e: Event, outcome: Outcome, history: seq<Entered>) {
    e.Called? && outcome.quip.Some? ==>
      if outcome.transition.None? then !outcome.quip.value.repetition
      else
        && outcome.quip.value.scene == outcome.transition.value.current
        && (outcome.quip.value.repetition
            <==> IsRepetition(blank, limits, history, outcome.quip.value.scene, outcome.world.machine.game,
                              e.readings.askedAt))
  }

  /** One event is recorded, and remarked on truthfully. */
  lemma EventRecords(before: World, config: Config, e: Event, blank: Memory, history: seq<Entered>)
    requires Fresh(blank) && before.memory == Recall(blank, config.limits, history)
    ensures var o := After(before, config, e);
            && o.world.memory == Recall(blank, config.limits, history + EnteredBy(e, o))
            && Truthful(blank, config.limits, e, o, history + EnteredBy(e, o))
  {
    match e {
      case Called(call, r) =>
        ReportsFollowHistory(before, config, call, r, blank, history);
        assert history + [] == history;
      case Muted(_) =>
        assert history + [] == history;
    }
  }

  /** The memories hold exactly the scenes entered. */
  lemma {:induction false} MemoryIsHistory(w: World, config: Config, events: seq<Event>)
    requires Fresh(w.memory)
    ensures var (after, outcomes) := Trace(w, config, events);
            after.memory == Recall(w.memory, config.limits, History(events, outcomes))
  {
    if events != [] {
      var n := |events| - 1;
      MemoryIsHistory(w, config, events[..n]);
      TraceOfFront(w, config, events);
      var (before, outcomes) := Trace(w, config, events[..n]);
      EventRecords(before, config, events[n], w.memory, History(events[..n], outcomes));
    } else {
      assert Recall(w.memory, config.limits, []) == w.memory;
    }
  }

  lemma LastIsTruthful(w: World, config: Config, events: seq<Event>)
    requires Fresh(w.memory) && events != []
    ensures var outcomes := Trace(w, config, events).1;
            Truthful(w.memory, config.limits, events[|events| - 1], outcomes[|events| - 1], History(events, outcomes))
  {
    var n := |events| - 1;
    MemoryIsHistory(w, config, events[..n]);
    TraceOfFront(w, config, events);
    var (before, outcomes) := Trace(w, config, events[..n]);
    EventRecords(before, config, events[n], w.memory, History(events[..n], outcomes));
  }

  ghost predicate TruthfulAt(w: World, config: Config, events: seq<Event>, outcomes: seq<Outcome>, k: nat)
    requires |events| == |outcomes| && k < |events|
  {
    Truthful(w.memory, config.limits, events[k], outcomes[k], History(events[..k + 1], outcomes[..k + 1]))
  }

  lemma EarlierIsTruthful(w: World, config: Config, events: seq<Event>, outcomes: seq<Outcome>, n: nat, k: nat)
    requires |events| == |outcomes| && k < n <= |events|
    requires TruthfulAt(w, config, events[..n], outcomes[..n], k)
    ensures TruthfulAt(w, config, events, outcomes, k)
  {
    assert events[..n][..k + 1] == events[..k + 1] && outcomes[..n][..k + 1] == outcomes[..k + 1];
  }

  /** From a fresh memory, every remark of every run is truthful about the whole run up to it. */
  lemma {:induction false} RemarksAreTruthful(w: World, config: Config, events: seq<Event>, k: nat)
    requires Fresh(w.memory) && k < |events|
    ensures TruthfulAt(w, config, events, Trace(w, config, events).1, k)
    decreases |events|
  {
    var n := |events| - 1;
    var outcomes := Trace(w, config, events).1;
    if k == n {
      LastIsTruthful(w, config, events);
      assert events[..n + 1] == events && outcomes[..n + 1] == outcomes;
    } else {
      RemarksAreTruthful(w, config, events[..n], k);
      TraceOfFront(w, config, events);
      EarlierIsTruthful(w, config, events, outcomes, n, k);
    }
  }

  // ---- Remarks and the cap ----

  /** What one event asks of the observer's slots. */
  function Requested(w: World, config: Config, e: Event): seq<ObserverCall> {
    match e
    case Called(call, r) => if Reserves(w, config, call, r) then [Reserve(AttemptOf(call, r))] else []
    case Muted(muted) => [SetMuted(muted)]
  }

  function Attempts(w: World, config: Config, events: seq<Event>): seq<ObserverCall> {
    if events == [] then []
    else
      var front := events[..|events| - 1];
      Attempts(w, config, front) + Requested(Trace(w, config, front).0, config, events[|front|])
  }

  /** The remarks of a run: when, and whether forced. */
  function Remarks(events: seq<Event>, outcomes: seq<Outcome>): Log
    requires |events| == |outcomes|
  {
    if events == [] then Log([], [])
    else
      var n := |events| - 1;
      var earlier := Remarks(events[..n], outcomes[..n]);
      if events[n].Called? && outcomes[n].quip.Some?
      then Emit(earlier, AttemptOf(events[n].call, events[n].readings)) else earlier
  }

  lemma LastReservation(o: Observer, s: Settings, calls: seq<ObserverCall>, last: ObserverCall)
    ensures var (before, log) := SlotReservation.Run(o, s, calls);
            SlotReservation.Run(o, s, calls + [last]) ==
            match last
            case SetMuted(muted) => (before.(muted := muted), log)
            case Reserve(a) =>
              var (after, granted) := ReserveSlot(before, s, a);
              (after, if granted then Emit(log, a) else log)
  {
    assert (calls + [last])[..|calls|] == calls;
  }

  /** The slots of a run, and its remarks, are those of the reservations it makes. */
  lemma {:induction false} TraceReserves(w: World, config: Config, events: seq<Event>)
    ensures var (after, outcomes) := Trace(w, config, events);
            SlotReservation.Run(w.slots, config.slots, Attempts(w, config, events))
            == (after.slots, Remarks(events, outcomes))
  {
    if events != [] {
      var n := |events| - 1;
      TraceReserves(w, config, events[..n]);
      TraceOfFront(w, config, events);
      EventReserves(w, config, events[..n], events[n]);
    }
  }

  lemma EventReserves(w: World, config: Config, front: seq<Event>, e: Event)
    ensures var (before, outcomes) := Trace(w, config, front);
            var (slots, log) := SlotReservation.Run(w.slots, config.slots, Attempts(w, config, front));
            slots == before.slots && log == Remarks(front, outcomes) ==>
              SlotReservation.Run(w.slots, config.slots, Attempts(w, config, front) + Requested(before, config, e))
              == (After(before, config, e).world.slots,
                  if e.Called? && After(before, config, e).quip.Some?
                  then Emit(log, AttemptOf(e.call, e.readings)) else log)
  {
    var before := Trace(w, config, front).0;
    var calls, more := Attempts(w, config, front), Requested(before, config, e);
    match e {
      case Called(call, r) => CallReserves(before, config, call, r);
      case Muted(_) =>
    }
    if more != [] {
      LastReservation(w.slots, config.slots, calls, more[0]);
      assert calls + more == calls + [more[0]];
    } else {
      assert calls + more == calls;
    }
  }

  /** The remarks of any run are a cooldown apart, and none that is not forced exceeds the cap. */
  lemma RemarksAreCooledAndCapped(w: World, config: Config, events: seq<Event>, builtAt: real, lag: real)
    requires w.slots == SlotReservation.Initial(builtAt) && Sane(config.slots)
    requires Timely(builtAt, Attempts(w, config, events), lag)
    ensures var remarks := Remarks(events, Trace(w, config, events).1);
            CooldownsApart(remarks.times, config.slots.cooldown) && Capped(config.slots, remarks, lag)
  {
    TraceReserves(w, config, events);
    EmissionsAreCooled(builtAt, config.slots, Attempts(w, config, events), lag);
    RunsAreCapped(builtAt, config.slots, Attempts(w, config, events), lag);
  }

  /** An unforced remark was won by a roll at or below the remark probability. */
  ghost predicate WonByDice(config: Config, e: Event, outcome: Outcome) {
    e.Called? && !Forces(e.call) && outcome.quip.Some? ==> e.readings.roll <= config.slots.probability
  }

  lemma EventIsWonByDice(before: World, config: Config, e: Event)
    requires config.slots.probability >= 0.0 && Dice.FloorIsAFraction(config.slots)
    ensures WonByDice(config, e, After(before, config, e))
  {
    if e.Called? && !Forces(e.call) && After(before, config, e).quip.Some? {
      CallReserves(before, config, e.call, e.readings);
      Dice.GrantNeedsALowRoll(before.slots, config.slots, AttemptOf(e.call, e.readings));
    }
  }

  /** In every run every remark that is not on a game change or home-coming was won by such a roll. */
  lemma {:induction false} RemarksAreWonByDice(w: World, config: Config, events: seq<Event>, k: nat)
    requires config.slots.probability >= 0.0 && Dice.FloorIsAFraction(config.slots) && k < |events|
    ensures WonByDice(config, events[k], Trace(w, config, events).1[k])
    decreases |events|
  {
    var n := |events| - 1;
    TraceOfFront(w, config, events);
    if k == n {
      EventIsWonByDice(Trace(w, config, events[..n]).0, config, events[n]);
    } else {
      RemarksAreWonByDice(w, config, events[..n], k);
    }
  }

  /** The same for the watcher: over any polls, texts and home-comings. */
  lemma WatchedRunsRemark(x: Watched, config: Config, inputs: seq<Input>, builtAt: real, lag: real, k: nat)
    requires Fresh(x.world.memory) && x.world.slots == SlotReservation.Initial(builtAt) && Sane(config.slots)
    requires Timely(builtAt, Attempts(x.world, config, EventsOfAll(x, config, inputs)), lag)
    requires k < |EventsOfAll(x, config, inputs)|
    ensures var events := EventsOfAll(x, config, inputs);
            var (after, outcomes) := Trace(x.world, config, events);
            var remarks := Remarks(events, outcomes);
            && after == Companion.Run(x, config, inputs).world
            && TruthfulAt(x.world, config, events, outcomes, k)
            && CooldownsApart(remarks.times, config.slots.cooldown) && Capped(config.slots, remarks, lag)
  {
    RunIsTraced(x, config, inputs);
    RemarksAreTruthful(x.world, config, EventsOfAll(x, config, inputs), k);
    RemarksAreCooledAndCapped(x.world, config, EventsOfAll(x, config, inputs), builtAt, lag);
  }

  /** As shipped nothing is left to ask of the settings. */
  lemma ShippedRunsRemark(x: Watched, inputs: seq<Input>, builtAt: real, lag: real, k: nat)
    requires Fresh(x.world.memory) && x.world.slots == SlotReservation.Initial(builtAt)
    requires var events := EventsOfAll(x, DEFAULT_CONFIGURATION, inputs);
             k < |events| && Timely(builtAt, Attempts(x.world, DEFAULT_CONFIGURATION, events), lag)
    ensures var events := EventsOfAll(x, DEFAULT_CONFIGURATION, inputs);
            var outcomes := Trace(x.world, DEFAULT_CONFIGURATION, events).1;
            var remarks := Remarks(events, outcomes);
            && TruthfulAt(x.world, DEFAULT_CONFIGURATION, events, outcomes, k)
            && CooldownsApart(remarks.times, 8.0) && Capped(DEFAULT_SETTINGS, remarks, lag)
  {
    DefaultsRecover();
    WatchedRunsRemark(x, DEFAULT_CONFIGURATION, inputs, builtAt, lag, k);
  }
}
