/** The companion as one value: scene machine, memories and slot reservation, as wired together
    once the companion has been started. */
module Companion {
  import opened Options
  import opened Scenes
  import opened CompanionMemory
  import opened SlotReservation
  import opened Reals
  import opened RepetitionHistory
  import SceneInterleaving

  datatype Config = Config(afkSeconds: real, limits: Limits, slots: Settings)

  /** As shipped. */
  const DEFAULT_CONFIGURATION := Config(AFK_THRESHOLD_SECONDS, DEFAULT_LIMITS, DEFAULT_SETTINGS)

  datatype World = World(machine: MachineState, memory: Memory, slots: Observer)

  datatype Quip = Quip(scene: Scene, repetition: bool)

  const AFK_DEEP_THRESHOLD_SECONDS := 1800.0
  const AFK_LONG_THRESHOLD_SECONDS := 3600.0
  const AFK_DEEP_TICK_PROBABILITY := 0.005
  const AFK_LONG_TICK_PROBABILITY := 0.002

  /** Clock readings and dice of one observer call, beyond those of the scene machine. */
  datatype Readings = Readings(
    recordedAt: real, askedAt: real,
    now: real, prunedAt: real, energyAt: real, roll: real,
    depthAt: real, deepRoll: real)

  /** The listener records the scene of every transition, under the game current at that moment. */
  function Noted(m: Memory, limits: Limits, t: Option<Transition>, game: Option<string>, at: real): Memory {
    if t.Some? then Record(m, limits, t.value.current, game, at) else m
  }

  /** A scene-machine call whose transition, if any, the listener writes to the memories. */
  function Advance(w: World, config: Config, call: Call, recordedAt: real): (World, Option<Transition>) {
    var (m, t) := Scenes.Apply(w.machine, config.afkSeconds, call);
    (w.(machine := m,
        memory := Noted(w.memory, config.limits, t, m.game, recordedAt)),
     t)
  }

  function EmitScene(w: World, config: Config, scene: Scene, repetition: bool, force: bool, r: Readings)
    : (World, Option<Quip>)
  {
    var (slots, granted) :=
      ReserveSlot(w.slots, config.slots, Attempt(force, r.now, r.prunedAt, r.energyAt, r.roll));
    (w.(slots := slots), if granted then Some(Quip(scene, repetition)) else None)
  }

  function EmitForTransition(w: World, config: Config, t: Transition, force: bool, r: Readings)
    : (World, Option<Quip>)
  {
    EmitScene(w, config, t.current, Repeats(w.memory, config.limits, t.current, w.machine.game, r.askedAt), force, r)
  }

  /** The chance of a remark per tick while AFK, by how long AFK has lasted. */
  function DeepAfkChance(m: MachineState, depthAt: real): Option<real> {
    if m.scene != Afk then None
    else
      var depth := if m.afkEnteredAt.None? then 0.0 else Max(0.0, depthAt - m.afkEnteredAt.value);
      if depth >= AFK_LONG_THRESHOLD_SECONDS then Some(AFK_LONG_TICK_PROBABILITY)
      else if depth >= AFK_DEEP_THRESHOLD_SECONDS then Some(AFK_DEEP_TICK_PROBABILITY)
      else None
  }

  datatype Outcome = Outcome(world: World, transition: Option<Transition>, quip: Option<Quip>)

  /** Game changes and home-coming pass the gate unconditionally. */
  predicate Forces(call: Call) { call.GameEnter? || call.GameExit? || call.LongGapReturn? }

  function Observe(w: World, config: Config, call: Call, r: Readings): Outcome {
    var (w1, t) := Advance(w, config, call, r.recordedAt);
    if t.Some? then
      var (w2, quip) := EmitForTransition(w1, config, t.value, Forces(call), r);
      Outcome(w2, t, quip)
    else if call.AssistantText? && !call.text.empty then
      var (w2, quip) := EmitScene(w1, config, w1.machine.scene, false, false, r);
      Outcome(w2, t, quip)
    else if call.Tick? then
      var chance := DeepAfkChance(w1.machine, r.depthAt);
      if chance.None? || r.deepRoll > chance.value then Outcome(w1, t, None)
      else
        var (w2, quip) := EmitScene(w1, config, Afk, false, false, r);
        Outcome(w2, t, quip)
    else
      Outcome(w1, t, None)
  }

  /** Whether a call gets as far as reserving a slot. */
  function Reserves(w: World, config: Config, call: Call, r: Readings): bool {
    var (w1, t) := Advance(w, config, call, r.recordedAt);
    || t.Some?
    || (call.AssistantText? && !call.text.empty)
    || (call.Tick? && DeepAfkChance(w1.machine, r.depthAt).Some?
        && r.deepRoll <= DeepAfkChance(w1.machine, r.depthAt).value)
  }

  function AttemptOf(call: Call, r: Readings): Attempt {
    Attempt(Forces(call), r.now, r.prunedAt, r.energyAt, r.roll)
  }

  /** One call reserves at most one slot, speaks exactly when it got one, and forces the gate only
      for game changes and home-coming, which always reserve. */
  lemma CallReserves(w: World, config: Config, call: Call, r: Readings)
    ensures var o := Observe(w, config, call, r);
            if Reserves(w, config, call, r)
            then (o.world.slots, o.quip.Some?) == ReserveSlot(w.slots, config.slots, AttemptOf(call, r))
            else o.world.slots == w.slots && o.quip.None?
    ensures Forces(call) ==> Reserves(w, config, call, r)
  {
    var (w1, t) := Advance(w, config, call, r.recordedAt);
    assert Forces(call) ==> t.Some?;
  }

  /** A remark is about the scene that the call leaves behind, with or without a transition. */
  lemma RemarksAreAboutTheScene(w: World, config: Config, call: Call, r: Readings)
    ensures var o := Observe(w, config, call, r);
            o.quip.Some? ==> o.quip.value.scene == o.world.machine.scene
    ensures var o := Observe(w, config, call, r);
            o.quip.Some? && o.transition.None? ==>
              && !o.quip.value.repetition
              && (call.AssistantText? || (call.Tick? && o.quip.value.scene == Afk))
  {
  }

  // ---- Which calls speak ----

  /** A game change or a home-coming is remarked on whatever the dice say, unless it is muted or not cooled. */
  lemma GameChangesSpeak(w: World, config: Config, call: Call, r: Readings)
    requires call.GameEnter? || call.GameExit? || call.LongGapReturn?
    ensures Observe(w, config, call, r).quip.Some?
            <==> !w.slots.muted && r.now - w.slots.lastEmitAt >= config.slots.cooldown
  {
    CallReserves(w, config, call, r);
  }

  /** A text that is not empty rolls the dice, with or without a transition; an empty one does nothing. */
  lemma TextsRollTheDice(w: World, config: Config, text: Text, noted: real, at: real, r: Readings)
    ensures var o := Observe(w, config, AssistantText(text, noted, at), r);
            if text.empty then o == Outcome(w, None, None)
            else (o.world.slots, o.quip.Some?)
                 == ReserveSlot(w.slots, config.slots, Attempt(false, r.now, r.prunedAt, r.energyAt, r.roll))
  {
    CallReserves(w, config, AssistantText(text, noted, at), r);
  }

  /** So does a tick that changes the scene; one that leaves AFK as it is must first win a rarer throw, from half an
      hour of AFK on; any other does nothing to the slots. */
  lemma TicksRollTheDice(w: World, config: Config, now: real, at: real, r: Readings)
    ensures var o := Observe(w, config, Tick(now, at), r);
            var m := o.world.machine;
            var depth := if m.afkEnteredAt.None? then 0.0 else Max(0.0, r.depthAt - m.afkEnteredAt.value);
            if o.transition.Some?
               || (m.scene == Afk && depth >= 1800.0 && r.deepRoll <= if depth >= 3600.0 then 0.002 else 0.005)
            then (o.world.slots, o.quip.Some?)
                 == ReserveSlot(w.slots, config.slots, Attempt(false, r.now, r.prunedAt, r.energyAt, r.roll))
            else o.world.slots == w.slots && o.quip.None?
  {
    CallReserves(w, config, Tick(now, at), r);
  }

  // ---- The screen watcher on top ----

  datatype Watched = Watched(world: World, active: Option<string>)

  /** A poll reports a changed foreground game, then always ticks. */
  function Poll(x: Watched, config: Config, detected: Option<string>,
                noted: real, at: real, r: Readings, tickNow: real, tickAt: real, tickReadings: Readings): Watched {
    var w1 :=
      if detected == x.active then x.world
      else if detected.Some? then Observe(x.world, config, GameEnter(detected.value, noted, at), r).world
      else Observe(x.world, config, GameExit(noted, at), r).world;
    Watched(Observe(w1, config, Tick(tickNow, tickAt), tickReadings).world, detected)
  }

  /** A poll enters or leaves the game if that changed, and ticks in any case, after it. */
  lemma PollMovesTheMachine(x: Watched, config: Config, detected: Option<string>,
                            noted: real, at: real, r: Readings, tickNow: real, tickAt: real, tickReadings: Readings)
    ensures var x' := Poll(x, config, detected, noted, at, r, tickNow, tickAt, tickReadings);
            var calls := (if detected == x.active then []
                          else if detected.Some? then [GameEnter(detected.value, noted, at)]
                          else [GameExit(noted, at)]) + [Tick(tickNow, tickAt)];
            x'.active == detected && x'.world.machine == Scenes.Run(x.world.machine, config.afkSeconds, calls).0
  {
    var tick := Tick(tickNow, tickAt);
    if detected == x.active {
      RunOne(x.world.machine, config.afkSeconds, tick);
      ObserveEffect(x.world, config, tick, tickReadings, "");
      assert [] + [tick] == [tick];
    } else {
      var change := if detected.Some? then GameEnter(detected.value, noted, at) else GameExit(noted, at);
      var w1 := Observe(x.world, config, change, r).world;
      RunOne(x.world.machine, config.afkSeconds, change);
      ObserveEffect(x.world, config, change, r, "");
      ObserveEffect(w1, config, tick, tickReadings, "");
      assert ([change] + [tick])[..1] == [change];
    }
  }

  lemma RunOne(s: MachineState, afkSeconds: real, call: Call)
    ensures Scenes.Run(s, afkSeconds, [call]).0 == Scenes.Apply(s, afkSeconds, call).0
  {
    assert [call][..0] == [] && Scenes.Run(s, afkSeconds, []) == (s, []);
  }

  datatype Input =
    | Polled(detected: Option<string>, noted: real, at: real, readings: Readings,
             tickNow: real, tickAt: real, tickReadings: Readings)
    | Heard(text: Text, noted: real, at: real, readings: Readings)
    | Returned(at: real, readings: Readings)

  function Step(x: Watched, config: Config, input: Input): Watched {
    match input
    case Polled(detected, noted, at, r, tickNow, tickAt, tickReadings) =>
      Poll(x, config, detected, noted, at, r, tickNow, tickAt, tickReadings)
    case Heard(text, noted, at, r) =>
      x.(world := Observe(x.world, config, AssistantText(text, noted, at), r).world)
    case Returned(at, r) =>
      x.(world := Observe(x.world, config, LongGapReturn(at), r).world)
  }

  function Run(x: Watched, config: Config, inputs: seq<Input>): Watched {
    if inputs == [] then x else Step(Run(x, config, inputs[..|inputs| - 1]), config, inputs[|inputs| - 1])
  }

  /** What the polls detected, in order. */
  function Detections(inputs: seq<Input>): seq<Option<string>> {
    if inputs == [] then []
    else
      var earlier, last := Detections(inputs[..|inputs| - 1]), inputs[|inputs| - 1];
      if last.Polled? then earlier + [last.detected] else earlier
  }

  /** The number of maximal runs of one game: positions where it is detected and was not just before. */
  function MaximalRuns(detections: seq<Option<string>>, name: string): nat {
    if detections == [] then 0
    else
      var n := |detections|;
      MaximalRuns(detections[..n - 1], name)
      + if detections[n - 1] == Some(name) && (n == 1 || detections[n - 2] != Some(name)) then 1 else 0
  }

  // ---- The watcher's replica and the play counters ----

  /** The watcher and the machine agree on the game, and the scene agrees with having one. */
  ghost predicate Agrees(x: Watched) {
    && x.active == x.world.machine.game
    && (x.world.machine.scene == GameWarming || x.world.machine.scene == GameActive ==> x.world.machine.game.Some?)
    && (x.world.machine.scene == Idle ==> !Playing(x.world.machine.game))
  }

  /** What a call does to the machine and the play counter, emission aside. */
  lemma ObserveEffect(w: World, config: Config, call: Call, r: Readings, name: string)
    ensures var w' := Observe(w, config, call, r).world;
            && w'.machine == Scenes.Apply(w.machine, config.afkSeconds, call).0
            && GamesPlayed(w'.memory, name) - GamesPlayed(w.memory, name)
               == (if call.GameEnter? && call.name == name && name != "" then 1 else 0)
  {
    AdvanceEffect(w, config, call, r.recordedAt, name);
  }

  lemma AdvanceEffect(w: World, config: Config, call: Call, recordedAt: real, name: string)
    ensures var w' := Advance(w, config, call, recordedAt).0;
            && w'.machine == Scenes.Apply(w.machine, config.afkSeconds, call).0
            && GamesPlayed(w'.memory, name) - GamesPlayed(w.memory, name)
               == (if call.GameEnter? && call.name == name && name != "" then 1 else 0)
  {
    var (m, t) := Scenes.Apply(w.machine, config.afkSeconds, call);
    assert t.Some? && t.value.current == GameWarming <==> call.GameEnter?;
    if t.Some? {
      RecordCountsWarmings(w.memory, config.limits, t.value.current, m.game, recordedAt, name);
    }
  }

  lemma RecordCountsWarmings(m: Memory, limits: Limits, scene: Scene, game: Option<string>, at: real, name: string)
    ensures GamesPlayed(Record(m, limits, scene, game, at), name) - GamesPlayed(m, name)
            == if scene == GameWarming && game == Some(name) && name != "" then 1 else 0
  {
  }

  lemma CallKeepsSceneInStep(s: MachineState, afkSeconds: real, call: Call)
    requires s.scene == GameWarming || s.scene == GameActive ==> s.game.Some?
    requires s.scene == Idle ==> !Playing(s.game)
    ensures var s' := Scenes.Apply(s, afkSeconds, call).0;
            && (s'.scene == GameWarming || s'.scene == GameActive ==> s'.game.Some?)
            && (s'.scene == Idle ==> !Playing(s'.game))
            && s'.game == (if call.GameEnter? then Some(call.name) else if call.GameExit? then None else s.game)
  {
  }

  lemma StepKeepsAgreement(x: Watched, config: Config, input: Input, name: string)
    requires Agrees(x)
    ensures var x' := Step(x, config, input);
            && Agrees(x')
            && x'.active == (if input.Polled? then input.detected else x.active)
            && GamesPlayed(x'.world.memory, name) - GamesPlayed(x.world.memory, name)
               == (if input.Polled? && input.detected == Some(name) && x.active != Some(name) && name != ""
                   then 1 else 0)
  {
    var w := x.world;
    match input {
      case Polled(detected, noted, at, r, tickNow, tickAt, tickReadings) =>
        var w1 := w;
        if detected != x.active {
          var call := if detected.Some? then GameEnter(detected.value, noted, at) else GameExit(noted, at);
          ObserveEffect(w, config, call, r, name);
          CallKeepsSceneInStep(w.machine, config.afkSeconds, call);
          w1 := Observe(w, config, call, r).world;
        }
        ObserveEffect(w1, config, Tick(tickNow, tickAt), tickReadings, name);
        CallKeepsSceneInStep(w1.machine, config.afkSeconds, Tick(tickNow, tickAt));
      case Heard(text, noted, at, r) =>
        ObserveEffect(w, config, AssistantText(text, noted, at), r, name);
        CallKeepsSceneInStep(w.machine, config.afkSeconds, AssistantText(text, noted, at));
      case Returned(at, r) =>
        ObserveEffect(w, config, LongGapReturn(at), r, name);
        CallKeepsSceneInStep(w.machine, config.afkSeconds, LongGapReturn(at));
    }
  }

  /** One more input adds a detection if it is a poll, and a maximal run if the poll starts one. */
  lemma PollsGrow(inputs: seq<Input>, name: string)
    requires inputs != []
    ensures var earlier, polls := Detections(inputs[..|inputs| - 1]), Detections(inputs);
            var last := inputs[|inputs| - 1];
            && polls == (if last.Polled? then earlier + [last.detected] else earlier)
            && MaximalRuns(polls, name) == MaximalRuns(earlier, name)
               + if last.Polled? && last.detected == Some(name) && Latest(earlier) != Some(name) then 1 else 0
  {
    var earlier, polls := Detections(inputs[..|inputs| - 1]), Detections(inputs);
    if inputs[|inputs| - 1].Polled? {
      assert polls[..|polls| - 1] == earlier;
    }
  }

  /** What was detected last; nothing before the first poll. */
  function Latest(polls: seq<Option<string>>): Option<string> {
    if polls == [] then None else polls[|polls| - 1]
  }

  /** In every run the watcher's game is the machine's game, and a game's play counter grows by
      exactly the number of maximal runs of that game among the polls. */
  lemma {:induction false} PlaysAreMaximalRuns(x: Watched, config: Config, inputs: seq<Input>, name: string)
    requires Agrees(x) && x.active == None
    ensures var x' := Run(x, config, inputs);
            && Agrees(x')
            && x'.active == Latest(Detections(inputs))
            && GamesPlayed(x'.world.memory, name)
               == GamesPlayed(x.world.memory, name) + (if name == "" then 0 else MaximalRuns(Detections(inputs), name))
  {
    if inputs != [] {
      var before, last := inputs[..|inputs| - 1], inputs[|inputs| - 1];
      PlaysAreMaximalRuns(x, config, before, name);
      var x1 := Run(x, config, before);
      assert Run(x, config, inputs) == Step(x1, config, last);
      StepKeepsAgreement(x1, config, last, name);
      PollsGrow(inputs, name);
    }
  }

  // ---- Repetition reports ----

  /** What a remark made by a call says, in terms of the world after the transition was recorded. */
  lemma RemarkFollowsTransition(w: World, config: Config, call: Call, r: Readings)
    ensures var (w1, t) := Advance(w, config, call, r.recordedAt);
            var o := Observe(w, config, call, r);
            && o.transition == t && o.world.memory == w1.memory && o.world.machine == w1.machine
            && (o.quip.Some? && t.None? ==> !o.quip.value.repetition)
            && (o.quip.Some? && t.Some? ==>
                  o.quip.value == Quip(t.value.current,
                                       Repeats(w1.memory, config.limits, t.value.current, w1.machine.game, r.askedAt)))
  {
  }

  /** The listener has written the new scene to the memories. */
  lemma ListenerRecords(w: World, config: Config, call: Call, r: Readings, blank: Memory, history: seq<Entered>)
    requires w.memory == Recall(blank, config.limits, history)
    ensures var (w1, t) := Advance(w, config, call, r.recordedAt);
            w1.memory == Recall(blank, config.limits,
                                if t.None? then history
                                else history + [Entered(t.value.current, w1.machine.game, r.recordedAt)])
  {
    var (w1, t) := Advance(w, config, call, r.recordedAt);
    if t.Some? {
      RecallOneMore(blank, config.limits, history, Entered(t.value.current, w1.machine.game, r.recordedAt));
    }
  }

  lemma RecallOneMore(blank: Memory, limits: Limits, history: seq<Entered>, last: Entered)
    ensures Recall(blank, limits, history + [last])
      == Record(Recall(blank, limits, history), limits, last.scene, last.game, last.at)
  {
    assert (history + [last])[..|history|] == history;
  }

  /** The listener has written the new scene to the memories before the advisor is asked, so a
      remark on a transition is a repetition exactly when the history that ends in this very scene
      makes it one. */
  lemma ReportsFollowHistory(w: World, config: Config, call: Call, r: Readings, blank: Memory, history: seq<Entered>)
    requires Fresh(blank) && w.memory == Recall(blank, config.limits, history)
    ensures var o := Observe(w, config, call, r);
            && (o.transition.None? ==> o.world.memory == w.memory && (o.quip.Some? ==> !o.quip.value.repetition))
            && (o.transition.Some? ==>
                  var scene, game := o.transition.value.current, o.world.machine.game;
                  var longer := history + [Entered(scene, game, r.recordedAt)];
                  && o.world.memory == Recall(blank, config.limits, longer)
                  && (o.quip.Some? ==>
                        && o.quip.value.scene == scene
                        && (o.quip.value.repetition
                            <==> IsRepetition(blank, config.limits, longer, scene, game, r.askedAt))))
  {
    var (w1, t) := Advance(w, config, call, r.recordedAt);
    RemarkFollowsTransition(w, config, call, r);
    ListenerRecords(w, config, call, r, blank, history);
    if t.Some? {
      var longer := history + [Entered(t.value.current, w1.machine.game, r.recordedAt)];
      VerdictsFollowHistory(blank, config.limits, longer, t.value.current, w1.machine.game, r.askedAt);
    }
  }

  // ---- Remarks while AFK ----

  /** A tick that changes no scene speaks only once AFK has lasted half an hour, and then only on a
      low roll; after a full hour the roll must be lower still. */
  lemma QuietTicksSpeakOnlyDeepInAfk(w: World, config: Config, now: real, at: real, r: Readings)
    requires Consistent(w.machine)
    requires var o := Observe(w, config, Tick(now, at), r); o.transition.None? && o.quip.Some?
    ensures var m := Observe(w, config, Tick(now, at), r).world.machine;
            && m.scene == Afk
            && r.depthAt - m.enteredAt >= 1800.0
            && r.deepRoll <= (if r.depthAt - m.enteredAt >= 3600.0 then 0.002 else 0.005)
  {
    SceneInterleaving.CallsKeepTimers(w.machine, config.afkSeconds, Tick(now, at));
    ObserveEffect(w, config, Tick(now, at), r, "");
  }
}
