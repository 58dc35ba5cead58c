/** The companion's scene machine as values.

    Every public call of the source is a short sequence of lock sections.  Each
    section is a function here; `Apply` runs the sections of one call back to
    back (a sequential call), and module SceneInterleaving lets the sections of
    several threads mix. */
module Scenes {
  import opened Options

  datatype Scene =
    | Idle | GameWarming | GameActive | Combat | Boss
    | VictoryAfterglow | DefeatRegroup | Afk | Homecoming

  const GAME_WARMING_SECONDS := 60.0
  const VICTORY_AFTERGLOW_SECONDS := 30.0
  const DEFEAT_REGROUP_SECONDS := 30.0
  const HOMECOMING_SECONDS := 20.0
  const AFK_THRESHOLD_SECONDS := 600.0

  /** How long a timed scene lasts; None for the scenes that never expire. */
  function Duration(scene: Scene): Option<real> {
    match scene
    case GameWarming => Some(GAME_WARMING_SECONDS)
    case VictoryAfterglow => Some(VICTORY_AFTERGLOW_SECONDS)
    case DefeatRegroup => Some(DEFEAT_REGROUP_SECONDS)
    case Homecoming => Some(HOMECOMING_SECONDS)
    case _ => None
  }

  datatype MachineState = MachineState(
    scene: Scene,
    enteredAt: real,
    expiresAt: Option<real>,
    afkEnteredAt: Option<real>,
    lastEventAt: real,
    game: Option<string>)

  /** What one call asks of the transition section. */
  datatype Request = Request(target: Scene, reason: string, duration: Option<real>, force: bool)

  datatype Transition = Transition(previous: Scene, current: Scene, reason: string, at: real)

  /** An assistant text, reduced to the outcome of the keyword tests. */
  datatype Text = Text(empty: bool, boss: bool, combat: bool, victory: bool, defeat: bool)

  /** Python truthiness of an optional game name. */
  predicate Playing(game: Option<string>) {
    game.Some? && game.value != ""
  }

  function GameOrIdle(game: Option<string>): Scene {
    if Playing(game) then GameActive else Idle
  }

  function Initial(eventAt: real, enteredAt: real): MachineState {
    MachineState(Idle, enteredAt, None, None, eventAt, None)
  }

  // ---- Lock sections ----

  function TickSection(s: MachineState, afkSeconds: real, now: real): (MachineState, Option<Request>) {
    if s.expiresAt.Some? && now >= s.expiresAt.value then
      var request :=
        if s.scene == GameWarming then Some(Request(GameActive, "warming_elapsed", None, false))
        else if s.scene == VictoryAfterglow || s.scene == DefeatRegroup then
          Some(Request(GameOrIdle(s.game), "post_combat_settled", None, false))
        else None;
      (s.(expiresAt := None), request)
    else if s.scene != Afk && s.scene != Homecoming && now - s.lastEventAt > afkSeconds then
      (s, Some(Request(Afk, "idle_timeout", None, false)))
    else
      (s, None)
  }

  function NoteSection(s: MachineState, at: real): MachineState {
    s.(lastEventAt := at)
  }

  /** The keyword cascade: the first kind that hits decides. */
  function KeywordRequest(text: Text): Option<Request> {
    if text.boss then Some(Request(Boss, "assistant_boss_keyword", None, false))
    else if text.combat then Some(Request(Combat, "assistant_combat_keyword", None, false))
    else if text.victory then
      Some(Request(VictoryAfterglow, "assistant_victory_keyword", Duration(VictoryAfterglow), false))
    else if text.defeat then
      Some(Request(DefeatRegroup, "assistant_defeat_keyword", Duration(DefeatRegroup), false))
    else None
  }

  function WakeSection(s: MachineState): Option<Request> {
    if s.scene != Afk then None else Some(Request(GameOrIdle(s.game), "assistant_text", None, false))
  }

  function EnterSection(s: MachineState, name: string, at: real): (MachineState, Request) {
    (s.(game := Some(name), lastEventAt := at),
     Request(GameWarming, if s.game.None? then "game_enter" else "game_switch", Duration(GameWarming), true))
  }

  function ExitSection(s: MachineState, at: real): (MachineState, Request) {
    (s.(game := None, lastEventAt := at), Request(Idle, "game_exit", None, true))
  }

  const HOMECOMING_REQUEST := Request(Homecoming, "long_gap_return", Duration(Homecoming), true)

  function TransitionSection(s: MachineState, r: Request, now: real): (MachineState, Option<Transition>) {
    if r.target == s.scene && !r.force then
      (s, None)
    else
      (s.(scene := r.target,
          enteredAt := now,
          expiresAt := if r.duration.Some? && r.duration.value != 0.0 then Some(now + r.duration.value) else None,
          afkEnteredAt := if r.target == Afk then Some(now) else None),
       Some(Transition(s.scene, r.target, r.reason, now)))
  }

  // ---- Sequential calls ----

  /** A call together with the clock readings it takes, in order. */
  datatype Call =
    | Tick(now: real, at: real)
    | AssistantText(text: Text, noted: real, at: real)
    | GameEnter(name: string, noted: real, at: real)
    | GameExit(noted: real, at: real)
    | LongGapReturn(at: real)

  function Perform(s: MachineState, r: Option<Request>, at: real): (MachineState, Option<Transition>) {
    if r.None? then (s, None) else TransitionSection(s, r.value, at)
  }

  function Apply(s: MachineState, afkSeconds: real, call: Call): (MachineState, Option<Transition>) {
    match call
    case Tick(now, at) =>
      var (s1, r) := TickSection(s, afkSeconds, now);
      Perform(s1, r, at)
    case AssistantText(text, noted, at) =>
      if text.empty then (s, None)
      else
        var s1 := NoteSection(s, noted);
        var keyword := KeywordRequest(text);
        Perform(s1, if keyword.Some? then keyword else WakeSection(s1), at)
    case GameEnter(name, noted, at) =>
      var (s1, r) := EnterSection(s, name, noted);
      TransitionSection(s1, r, at)
    case GameExit(noted, at) =>
      var (s1, r) := ExitSection(s, noted);
      TransitionSection(s1, r, at)
    case LongGapReturn(at) =>
      TransitionSection(s, HOMECOMING_REQUEST, at)
  }

  function Start(call: Call): real {
    match call
    case Tick(now, _) => now
    case AssistantText(_, noted, _) => noted
    case GameEnter(_, noted, _) => noted
    case GameExit(noted, _) => noted
    case LongGapReturn(at) => at
  }

  function EndOfCalls(from: real, calls: seq<Call>): real {
    if calls == [] then from else calls[|calls| - 1].at
  }

  /** The clock never runs backwards within or between calls. */
  predicate Monotone(from: real, calls: seq<Call>) {
    calls == [] ||
    (var before, last := calls[..|calls| - 1], calls[|calls| - 1];
     Monotone(from, before) && EndOfCalls(from, before) <= Start(last) <= last.at)
  }

  function AppendSome<T>(xs: seq<T>, x: Option<T>): seq<T> {
    if x.Some? then xs + [x.value] else xs
  }

  /** The state and the transitions after a sequence of calls. */
  function Run(s: MachineState, afkSeconds: real, calls: seq<Call>): (MachineState, seq<Transition>) {
    if calls == [] then (s, [])
    else
      var (s1, log) := Run(s, afkSeconds, calls[..|calls| - 1]);
      var (s2, t) := Apply(s1, afkSeconds, calls[|calls| - 1]);
      (s2, AppendSome(log, t))
  }

  // ---- The timer invariant ----

  /** The AFK timer is set exactly in AFK, and an expiry belongs to the scene it was set for. */
  ghost predicate Consistent(s: MachineState) {
    && (s.afkEnteredAt.Some? <==> s.scene == Afk)
    && (s.afkEnteredAt.Some? ==> s.afkEnteredAt.value == s.enteredAt)
    && (s.expiresAt.Some? ==>
          Duration(s.scene).Some? && s.expiresAt.value == s.enteredAt + Duration(s.scene).value)
  }

  /** A request carries the duration of its own target, or none. */
  ghost predicate Fitting(r: Request) {
    r.duration.Some? ==> r.duration == Duration(r.target)
  }

  // ---- AFK spacing ----

  ghost predicate AfkSpaced(log: seq<Transition>, afkSeconds: real) {
    forall i, j :: 0 <= i < j < |log| && log[i].current == Afk && log[j].current == Afk ==>
      log[j].at - log[i].at > afkSeconds
  }

  /** Once AFK has been left, an event was noted no earlier than each AFK entry so far. */
  ghost predicate EventsFollowAfk(s: MachineState, log: seq<Transition>, upTo: real) {
    && s.lastEventAt <= upTo
    && (forall i :: 0 <= i < |log| ==> log[i].at <= upTo)
    && (s.scene != Afk && s.scene != Homecoming ==>
          forall i :: 0 <= i < |log| && log[i].current == Afk ==> log[i].at <= s.lastEventAt)
  }

  lemma TickKeepsAfkSpacing(s: MachineState, log: seq<Transition>, afkSeconds: real, from: real, now: real, at: real)
    requires AfkSpaced(log, afkSeconds) && EventsFollowAfk(s, log, from) && from <= now <= at
    ensures var (s', t) := Apply(s, afkSeconds, Tick(now, at));
            AfkSpaced(AppendSome(log, t), afkSeconds) && EventsFollowAfk(s', AppendSome(log, t), at)
  {
    var (s', t) := Apply(s, afkSeconds, Tick(now, at));
    if t.Some? && t.value.current == Afk {
      assert s.lastEventAt < t.value.at - afkSeconds;
    }
  }

  lemma CallKeepsAfkSpacing(s: MachineState, log: seq<Transition>, afkSeconds: real, from: real, call: Call)
    requires AfkSpaced(log, afkSeconds) && EventsFollowAfk(s, log, from) && from <= Start(call) <= call.at
    ensures var (s', t) := Apply(s, afkSeconds, call);
            AfkSpaced(AppendSome(log, t), afkSeconds) && EventsFollowAfk(s', AppendSome(log, t), call.at)
  {
    var (s', t) := Apply(s, afkSeconds, call);
    if call.Tick? {
      TickKeepsAfkSpacing(s, log, afkSeconds, from, call.now, call.at);
    } else {
      assert t.Some? ==> t.value.current != Afk && t.value.at == call.at;
      assert s' == s || call.LongGapReturn? || s'.lastEventAt == Start(call);
    }
  }

  lemma {:induction false} AfkSpacingInvariant(s: MachineState, afkSeconds: real, from: real, calls: seq<Call>)
    requires s.lastEventAt <= from && Monotone(from, calls)
    ensures var (s', log) := Run(s, afkSeconds, calls);
            AfkSpaced(log, afkSeconds) && EventsFollowAfk(s', log, EndOfCalls(from, calls))
  {
    if calls != [] {
      var before := calls[..|calls| - 1];
      AfkSpacingInvariant(s, afkSeconds, from, before);
      var (s1, log) := Run(s, afkSeconds, before);
      CallKeepsAfkSpacing(s1, log, afkSeconds, EndOfCalls(from, before), calls[|calls| - 1]);
    }
  }

  /** Any two entries into AFK are more than `afkSeconds` apart, in every sequential run. */
  lemma AfkEntriesAreFarApart(s: MachineState, afkSeconds: real, from: real, calls: seq<Call>, i: nat, j: nat)
    requires s.lastEventAt <= from && Monotone(from, calls)
    requires var log := Run(s, afkSeconds, calls).1;
             i < j < |log| && log[i].current == Afk && log[j].current == Afk
    ensures var log := Run(s, afkSeconds, calls).1; log[j].at - log[i].at > afkSeconds
  {
    AfkSpacingInvariant(s, afkSeconds, from, calls);
  }

  // ---- Tick-only runs ----

  function Rank(scene: Scene): nat {
    match scene
    case GameWarming => 2
    case VictoryAfterglow => 2
    case DefeatRegroup => 2
    case Afk => 0
    case Homecoming => 0
    case _ => 1
  }

  ghost predicate TicksOnly(calls: seq<Call>) {
    forall i :: 0 <= i < |calls| ==> calls[i].Tick?
  }

  /** Ticks alone pay one unit of rank per transition, so at most two transitions happen,
      and HOMECOMING is never left. */
  lemma {:induction false} TickOnlyRunsSettle(s: MachineState, afkSeconds: real, calls: seq<Call>)
    requires TicksOnly(calls)
    ensures var (s', log) := Run(s, afkSeconds, calls);
            && Rank(s'.scene) + |log| <= Rank(s.scene) <= 2
            && (forall i :: 0 <= i < |log| ==> log[i].previous != log[i].current)
            && (s.scene == Homecoming ==> s'.scene == Homecoming && log == [])
  {
    if calls != [] {
      TickOnlyRunsSettle(s, afkSeconds, calls[..|calls| - 1]);
    }
  }

  /** Two ticks late enough bring every consistent state except HOMECOMING to AFK. */
  lemma TwoLateTicksReachAfk(s: MachineState, afkSeconds: real, first: Call, second: Call)
    requires Consistent(s) && s.scene != Homecoming
    requires first.Tick? && second.Tick? && Monotone(first.now, [first, second])
    requires first.now - s.lastEventAt > afkSeconds
    requires s.expiresAt.Some? ==> first.now >= s.expiresAt.value
    ensures Run(s, afkSeconds, [first, second]).0.scene == Afk
  {
    var calls := [first, second];
    assert calls[0] == first && calls[1] == second;
    assert calls[..1] == [first];
    assert EndOfCalls(first.now, [first]) == first.at;
    assert Run(s, afkSeconds, [first]).0 == Apply(s, afkSeconds, first).0 by {
      assert [first][..0] == [];
      assert Run(s, afkSeconds, []) == (s, []);
    }
  }
}
