/** The stateful objects of the companion, proved against the value-level model. */
module CompanionClasses {
  import opened Options
  import opened Scenes
  import opened CompanionMemory
  import opened DensityGovernors
  import opened Reals
  import opened SlotReservation
  import opened Companion

  class SceneStateMachine {
    const afkSeconds: real
    const listener: RepetitionAdvisor
    var scene: Scene
    var enteredAt: real
    var expiresAt: Option<real>
    var afkEnteredAt: Option<real>
    var lastEventAt: real
    var game: Option<string>

    ghost function State(): MachineState
      reads this
    {
      MachineState(scene, enteredAt, expiresAt, afkEnteredAt, lastEventAt, game)
    }

    constructor (afkSeconds: real, listener: RepetitionAdvisor, eventAt: real, enteredAt: real)
      ensures this.afkSeconds == afkSeconds && this.listener == listener
      ensures State() == Scenes.Initial(eventAt, enteredAt)
    {
      this.afkSeconds, this.listener := afkSeconds, listener;
      scene, this.enteredAt, expiresAt, afkEnteredAt, lastEventAt, game := Idle, enteredAt, None, None, eventAt, None;
    }

    method TransitionTo(target: Scene, reason: string, duration: Option<real>, force: bool, now: real, recordedAt: real)
      returns (t: Option<Transition>)
      modifies this, listener.short, listener.persistent
      ensures (State(), t) == TransitionSection(old(State()), Request(target, reason, duration, force), now)
      ensures listener.Value() == if t.None? then old(listener.Value())
                                  else Record(old(listener.Value()), listener.short.limits,
                                              target, old(game), recordedAt)
    {
      if target == scene && !force {
        return None;
      }
      var previous := scene;
      scene := target;
      enteredAt := now;
      expiresAt := if duration.Some? && duration.value != 0.0 then Some(now + duration.value) else None;
      afkEnteredAt := if target == Afk then Some(now) else None;
      t := Some(Transition(previous, target, reason, now));
      listener.RecordSceneEntry(target, game, recordedAt);
    }

    method TickOnce(now: real, at: real, recordedAt: real) returns (t: Option<Transition>)
      modifies this, listener.short, listener.persistent
      ensures (State(), t) == Scenes.Apply(old(State()), afkSeconds, Tick(now, at))
      ensures listener.Value() == Noted(old(listener.Value()), listener.short.limits, t, game, recordedAt)
    {
      var target: Option<Scene>, reason := None, "";
      if expiresAt.Some? && now >= expiresAt.value {
        if scene == GameWarming {
          target, reason := Some(GameActive), "warming_elapsed";
        } else if scene == VictoryAfterglow || scene == DefeatRegroup {
          target, reason := Some(GameOrIdle(game)), "post_combat_settled";
        }
        expiresAt := None;
      } else if scene != Afk && scene != Homecoming {
        if now - lastEventAt > afkSeconds {
          target, reason := Some(Afk), "idle_timeout";
        }
      }
      if target == None {
        return None;
      }
      t := TransitionTo(target.value, reason, None, false, at, recordedAt);
    }

    method ObserveAssistantText(text: Text, noted: real, at: real, recordedAt: real) returns (t: Option<Transition>)
      modifies this, listener.short, listener.persistent
      ensures (State(), t) == Scenes.Apply(old(State()), afkSeconds, AssistantText(text, noted, at))
      ensures listener.Value() == Noted(old(listener.Value()), listener.short.limits, t, game, recordedAt)
    {
      if text.empty {
        return None;
      }
      lastEventAt := noted;
      if text.boss {
        t := TransitionTo(Boss, "assistant_boss_keyword", None, false, at, recordedAt);
      } else if text.combat {
        t := TransitionTo(Combat, "assistant_combat_keyword", None, false, at, recordedAt);
      } else if text.victory {
        t := TransitionTo(VictoryAfterglow, "assistant_victory_keyword",
          Some(VICTORY_AFTERGLOW_SECONDS), false, at, recordedAt);
      } else if text.defeat {
        t := TransitionTo(DefeatRegroup, "assistant_defeat_keyword",
          Some(DEFEAT_REGROUP_SECONDS), false, at, recordedAt);
      } else {
        t := WakeFromAfk("assistant_text", at, recordedAt);
      }
    }

    method WakeFromAfk(reason: string, at: real, recordedAt: real) returns (t: Option<Transition>)
      modifies this, listener.short, listener.persistent
      ensures old(scene) != Afk ==> t == None && State() == old(State()) && listener.Value() == old(listener.Value())
      ensures old(scene) == Afk ==>
        && (State(), t) == TransitionSection(old(State()), Request(GameOrIdle(old(game)), reason, None, false), at)
        && t.Some?
        && listener.Value() == Record(old(listener.Value()), listener.short.limits,
                                      GameOrIdle(old(game)), game, recordedAt)
    {
      if scene != Afk {
        return None;
      }
      t := TransitionTo(GameOrIdle(game), reason, None, false, at, recordedAt);
    }

    method ObserveGameEnter(name: string, noted: real, at: real, recordedAt: real) returns (t: Option<Transition>)
      modifies this, listener.short, listener.persistent
      ensures (State(), t) == Scenes.Apply(old(State()), afkSeconds, GameEnter(name, noted, at))
      ensures listener.Value() == Noted(old(listener.Value()), listener.short.limits, t, game, recordedAt)
    {
      var previousGame := game;
      game := Some(name);
      lastEventAt := noted;
      t := TransitionTo(GameWarming, if previousGame == None then "game_enter" else "game_switch",
        Some(GAME_WARMING_SECONDS), true, at, recordedAt);
    }

    method ObserveGameExit(noted: real, at: real, recordedAt: real) returns (t: Option<Transition>)
      modifies this, listener.short, listener.persistent
      ensures (State(), t) == Scenes.Apply(old(State()), afkSeconds, GameExit(noted, at))
      ensures listener.Value() == Noted(old(listener.Value()), listener.short.limits, t, game, recordedAt)
    {
      game := None;
      lastEventAt := noted;
      t := TransitionTo(Idle, "game_exit", None, true, at, recordedAt);
    }

    method ObserveHomecoming(at: real, recordedAt: real) returns (t: Option<Transition>)
      modifies this, listener.short, listener.persistent
      ensures (State(), t) == Scenes.Apply(old(State()), afkSeconds, LongGapReturn(at))
      ensures listener.Value() == Noted(old(listener.Value()), listener.short.limits, t, game, recordedAt)
    {
      t := TransitionTo(Homecoming, "long_gap_return", Some(HOMECOMING_SECONDS), true, at, recordedAt);
    }
  }

  class CompanionObserver {
    const probability: real
    const cooldown: real
    const governor: DensityGovernor
    const sceneState: SceneStateMachine
    const advisor: RepetitionAdvisor
    var lastEmitAt: real
    var muted: bool

    /** The objects are wired together: the advisor asked is the listener that records. */
    predicate Wired()
    {
      advisor == sceneState.listener
    }

    ghost function Configuration(): Config {
      Config(sceneState.afkSeconds, advisor.short.limits, Settings(governor.tuning, probability, cooldown))
    }

    ghost function Slots(): Observer
      reads this, governor
    {
      Observer(governor.Value(), lastEmitAt, muted)
    }

    ghost function Value(): World
      reads this, governor, sceneState, advisor.short, advisor.persistent
    {
      World(sceneState.State(), advisor.Value(), Slots())
    }

    constructor (probability: real, cooldown: real, governor: DensityGovernor, sceneState: SceneStateMachine)
      ensures Wired() && this.governor == governor && this.sceneState == sceneState
      ensures this.probability == probability && this.cooldown == cooldown
      ensures lastEmitAt == 0.0 && !muted
    {
      this.probability, this.cooldown, this.governor, this.sceneState := probability, cooldown, governor, sceneState;
      advisor := sceneState.listener;
      lastEmitAt, muted := 0.0, false;
    }

    method SetMuted(muted: bool)
      modifies this`muted
      ensures this.muted == muted
    {
      this.muted := muted;
    }

    method Reserve(a: Attempt) returns (granted: bool)
      modifies this, governor
      ensures Slots() == ReserveSlot(old(Slots()), Configuration().slots, a).0
      ensures granted == ReserveSlot(old(Slots()), Configuration().slots, a).1
    {
      if muted {
        return false;
      }
      if !a.force {
        var gated := governor.GateProbability(probability, a.prunedAt, a.energyAt);
        if gated <= 0.0 {
          return false;
        }
        if a.roll > gated {
          return false;
        }
      }
      if a.now - lastEmitAt < cooldown {
        return false;
      }
      lastEmitAt := a.now;
      governor.Record(a.now);
      return true;
    }

    method MaybeEmitScene(scene: Scene, repetition: bool, force: bool, r: Readings) returns (quip: Option<Quip>)
      modifies this, governor
      ensures Value() == EmitScene(old(Value()), Configuration(), scene, repetition, force, r).0
      ensures quip == EmitScene(old(Value()), Configuration(), scene, repetition, force, r).1
    {
      var granted := Reserve(Attempt(force, r.now, r.prunedAt, r.energyAt, r.roll));
      quip := if granted then Some(Quip(scene, repetition)) else None;
    }

    method EmitTransition(t: Transition, force: bool, r: Readings) returns (quip: Option<Quip>)
      modifies this, governor
      ensures Value() == EmitForTransition(old(Value()), Configuration(), t, force, r).0
      ensures quip == EmitForTransition(old(Value()), Configuration(), t, force, r).1
    {
      var repetition := advisor.Advise(t.current, sceneState.game, r.askedAt);
      quip := MaybeEmitScene(t.current, repetition, force, r);
    }

    method AssistantSaid(text: Text, noted: real, at: real, r: Readings) returns (quip: Option<Quip>)
      requires Wired()
      modifies this, governor, sceneState, advisor.short, advisor.persistent
      ensures Value() == Observe(old(Value()), Configuration(), AssistantText(text, noted, at), r).world
      ensures quip == Observe(old(Value()), Configuration(), AssistantText(text, noted, at), r).quip
    {
      var t := sceneState.ObserveAssistantText(text, noted, at, r.recordedAt);
      if t.Some? {
        quip := EmitTransition(t.value, false, r);
        return;
      }
      if text.empty {
        return None;
      }
      quip := MaybeEmitScene(sceneState.scene, false, false, r);
    }

    method EnterGame(name: string, noted: real, at: real, r: Readings) returns (quip: Option<Quip>)
      requires Wired()
      modifies this, governor, sceneState, advisor.short, advisor.persistent
      ensures Value() == Observe(old(Value()), Configuration(), GameEnter(name, noted, at), r).world
      ensures quip == Observe(old(Value()), Configuration(), GameEnter(name, noted, at), r).quip
    {
      var t := sceneState.ObserveGameEnter(name, noted, at, r.recordedAt);
      if t.None? {
        return None;
      }
      quip := EmitTransition(t.value, true, r);
    }

    method ExitGame(noted: real, at: real, r: Readings) returns (quip: Option<Quip>)
      requires Wired()
      modifies this, governor, sceneState, advisor.short, advisor.persistent
      ensures Value() == Observe(old(Value()), Configuration(), GameExit(noted, at), r).world
      ensures quip == Observe(old(Value()), Configuration(), GameExit(noted, at), r).quip
    {
      var t := sceneState.ObserveGameExit(noted, at, r.recordedAt);
      if t.None? {
        return None;
      }
      quip := EmitTransition(t.value, true, r);
    }

    method ReturnAfterGap(at: real, r: Readings) returns (quip: Option<Quip>)
      requires Wired()
      modifies this, governor, sceneState, advisor.short, advisor.persistent
      ensures Value() == Observe(old(Value()), Configuration(), LongGapReturn(at), r).world
      ensures quip == Observe(old(Value()), Configuration(), LongGapReturn(at), r).quip
    {
      var t := sceneState.ObserveHomecoming(at, r.recordedAt);
      if t.None? {
        return None;
      }
      quip := EmitTransition(t.value, true, r);
    }

    method TickOnce(now: real, at: real, r: Readings) returns (quip: Option<Quip>)
      requires Wired()
      modifies this, governor, sceneState, advisor.short, advisor.persistent
      ensures Value() == Observe(old(Value()), Configuration(), Tick(now, at), r).world
      ensures quip == Observe(old(Value()), Configuration(), Tick(now, at), r).quip
    {
      var t := sceneState.TickOnce(now, at, r.recordedAt);
      if t.Some? {
        quip := EmitTransition(t.value, false, r);
        return;
      }
      if sceneState.scene != Afk {
        return None;
      }
      var depth := if sceneState.afkEnteredAt.None? then 0.0
                   else Max(0.0, r.depthAt - sceneState.afkEnteredAt.value);
      var threshold: real;
      if depth >= AFK_LONG_THRESHOLD_SECONDS {
        threshold := AFK_LONG_TICK_PROBABILITY;
      } else if depth >= AFK_DEEP_THRESHOLD_SECONDS {
        threshold := AFK_DEEP_TICK_PROBABILITY;
      } else {
        return None;
      }
      if r.deepRoll > threshold {
        return None;
      }
      quip := MaybeEmitScene(Afk, false, false, r);
    }
  }

  class PassiveScreenWatcher {
    const observer: CompanionObserver
    var activeGame: Option<string>

    ghost function Value(): Watched
      reads this, observer, observer.governor, observer.sceneState, observer.advisor.short, observer.advisor.persistent
    {
      Watched(observer.Value(), activeGame)
    }

    constructor (observer: CompanionObserver)
      ensures this.observer == observer && activeGame == None
    {
      this.observer := observer;
      activeGame := None;
    }

    method PollOnce(detected: Option<string>, noted: real, at: real, r: Readings,
                    tickNow: real, tickAt: real, tickReadings: Readings)
      requires observer.Wired()
      modifies this, observer, observer.governor, observer.sceneState,
               observer.advisor.short, observer.advisor.persistent
      ensures Value() == Poll(old(Value()), observer.Configuration(), detected, noted, at, r,
                              tickNow, tickAt, tickReadings)
    {
      var previous := activeGame;
      activeGame := detected;
      if detected != previous {
        if previous == None && detected != None {
          var _ := observer.EnterGame(detected.value, noted, at, r);
        } else if previous != None && detected == None {
          var _ := observer.ExitGame(noted, at, r);
        } else if previous != None && detected != None {
          var _ := observer.EnterGame(detected.value, noted, at, r);
        }
      }
      var _ := observer.TickOnce(tickNow, tickAt, tickReadings);
    }
  }
}
