/** Where each call leads: the scene, the timers and the game after it, for every state. */
module SceneTable {
  import opened Options
  import opened Scenes
  import opened SceneInterleaving

  /** What a change of scene leaves behind: a new entry time, no old expiry, and the AFK timer in AFK only. */
  ghost predicate Entered(s: MachineState, s': MachineState, t: Option<Transition>, scene: Scene, reason: string,
                          at: real, expiresAt: Option<real>)
  {
    && s'.scene == scene && s'.enteredAt == at && s'.expiresAt == expiresAt
    && s'.afkEnteredAt == (if scene == Afk then Some(at) else None)
    && t == Some(Transition(s.scene, scene, reason, at))
  }

  ghost predicate Stayed(s: MachineState, s': MachineState, t: Option<Transition>) {
    && s'.scene == s.scene && s'.enteredAt == s.enteredAt && s'.expiresAt == s.expiresAt
    && s'.afkEnteredAt == s.afkEnteredAt && t == None
  }

  /** The game scene or idle, by whether a named game is running. */
  ghost predicate BackTo(scene: Scene, game: Option<string>) {
    scene == GameActive <==> game.Some? && game.value != ""
  }

  /** The first kind of keyword that hits decides, and a scene that is already there is not entered again;
      without keywords a text only wakes the machine from AFK.  Either way it restarts the idle time. */
  lemma TextLeadsTo(s: MachineState, afkSeconds: real, text: Text, noted: real, at: real)
    requires !text.empty
    ensures var (s', t) := Apply(s, afkSeconds, AssistantText(text, noted, at));
            && s'.lastEventAt == noted && s'.game == s.game
            && (text.boss ==>
                  if s.scene == Boss then Stayed(s, s', t)
                  else Entered(s, s', t, Boss, "assistant_boss_keyword", at, None))
            && (!text.boss && text.combat ==>
                  if s.scene == Combat then Stayed(s, s', t)
                  else Entered(s, s', t, Combat, "assistant_combat_keyword", at, None))
            && (!text.boss && !text.combat && text.victory ==>
                  if s.scene == VictoryAfterglow then Stayed(s, s', t)
                  else Entered(s, s', t, VictoryAfterglow, "assistant_victory_keyword", at, Some(at + 30.0)))
            && (!text.boss && !text.combat && !text.victory && text.defeat ==>
                  if s.scene == DefeatRegroup then Stayed(s, s', t)
                  else Entered(s, s', t, DefeatRegroup, "assistant_defeat_keyword", at, Some(at + 30.0)))
            && (!text.boss && !text.combat && !text.victory && !text.defeat ==>
                  if s.scene != Afk then Stayed(s, s', t)
                  else && (s'.scene == GameActive || s'.scene == Idle) && BackTo(s'.scene, s.game)
                       && Entered(s, s', t, s'.scene, "assistant_text", at, None))
  {
  }

  lemma EmptyTextDoesNothing(s: MachineState, afkSeconds: real, text: Text, noted: real, at: real)
    requires text.empty
    ensures Apply(s, afkSeconds, AssistantText(text, noted, at)) == (s, None)
  {
  }

  /** A tick past the expiry ends the scene it was set for, and clears the expiry in any scene; otherwise it
      enters AFK once the idle time has passed, except from AFK and home-coming. */
  lemma TickLeadsTo(s: MachineState, afkSeconds: real, now: real, at: real)
    ensures var (s', t) := Apply(s, afkSeconds, Tick(now, at));
            && s'.lastEventAt == s.lastEventAt && s'.game == s.game
            && (if s.expiresAt.Some? && now >= s.expiresAt.value then
                  if s.scene == GameWarming then Entered(s, s', t, GameActive, "warming_elapsed", at, None)
                  else if s.scene == VictoryAfterglow || s.scene == DefeatRegroup then
                    && (s'.scene == GameActive || s'.scene == Idle) && BackTo(s'.scene, s.game)
                    && Entered(s, s', t, s'.scene, "post_combat_settled", at, None)
                  else s' == s.(expiresAt := None) && t == None
                else if s.scene != Afk && s.scene != Homecoming && now - s.lastEventAt > afkSeconds then
                  Entered(s, s', t, Afk, "idle_timeout", at, None)
                else s' == s && t == None)
  {
  }

  /** A game that is entered warms up for a minute, even if it was running before. */
  lemma GameEnterLeadsTo(s: MachineState, afkSeconds: real, name: string, noted: real, at: real)
    ensures var (s', t) := Apply(s, afkSeconds, GameEnter(name, noted, at));
            && s'.lastEventAt == noted && s'.game == Some(name)
            && Entered(s, s', t, GameWarming, if s.game.None? then "game_enter" else "game_switch", at, Some(at + 60.0))
  {
  }

  /** Leaving a game always enters idle. */
  lemma GameExitLeadsTo(s: MachineState, afkSeconds: real, noted: real, at: real)
    ensures var (s', t) := Apply(s, afkSeconds, GameExit(noted, at));
            && s'.lastEventAt == noted && s'.game == None
            && Entered(s, s', t, Idle, "game_exit", at, None)
  {
  }

  /** Home-coming lasts twenty seconds, and neither touches the game nor restarts the idle time. */
  lemma LongGapReturnLeadsTo(s: MachineState, afkSeconds: real, at: real)
    ensures var (s', t) := Apply(s, afkSeconds, LongGapReturn(at));
            && s'.lastEventAt == s.lastEventAt && s'.game == s.game
            && Entered(s, s', t, Homecoming, "long_gap_return", at, Some(at + 20.0))
  {
  }

  /** As shipped the idle time is ten minutes. */
  lemma ShippedIdleTime(s: MachineState, now: real, at: real)
    requires s.expiresAt.None? && s.scene != Afk && s.scene != Homecoming
    ensures Apply(s, AFK_THRESHOLD_SECONDS, Tick(now, at)).0.scene == Afk <==> now - s.lastEventAt > 600.0
  {
    TickLeadsTo(s, AFK_THRESHOLD_SECONDS, now, at);
  }

  /** A forced scene is entered whatever the scene before, and never expires. */
  lemma ForcedSceneLeadsTo(c: System, t: Thread, target: Scene, why: string, at: real, afkSeconds: real)
    requires StageOf(c, t) == Ready
    ensures var c' := Execute(c, afkSeconds, [Step(t, BeginForced(target, why))] + Finish(t, at));
            var entry := Transition(c.machine.scene, target, why, at);
            && c'.log == c.log + [entry] && StageOf(c', t) == Ready
            && c'.machine.lastEventAt == c.machine.lastEventAt && c'.machine.game == c.machine.game
            && Entered(c.machine, c'.machine, Some(entry), target, why, at, None)
  {
    var c1 := Next(c, Step(t, BeginForced(target, why)), afkSeconds);
    ExecuteOne(c, afkSeconds, Step(t, BeginForced(target, why)), Finish(t, at));
    FinishPerforms(c1, t, afkSeconds, at, Some(Request(target, why, None, true)));
  }
}
