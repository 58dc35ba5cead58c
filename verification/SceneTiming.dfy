/** Interleaved calls in real time: how far apart entries into AFK are when one thread ticks and every
    call takes at most a given time. */
module SceneTiming {
  import opened Options
  import opened Scenes
  import opened SceneInterleaving

  /** An atomic step and the time at which it is taken. */
  datatype Timed = Timed(step: Step, clock: real)

  /** The system, when each thread took the first step of its call, and the time. */
  datatype World = World(system: System, begun: map<Thread, real>, time: real)

  /** The clock reading that a step takes. */
  function Reading(action: Action): Option<real> {
    match action
    case BeginTick(now) => Some(now)
    case BeginText(_, at) => Some(at)
    case BeginEnter(_, at) => Some(at)
    case BeginExit(at) => Some(at)
    case ReadClock(now) => Some(now)
    case _ => None
  }

  predicate Begins(action: Action) {
    action.BeginTick? || action.BeginText? || action.BeginEnter? || action.BeginExit? || action.BeginHomecoming?
  }

  function Advance(w: World, move: Timed, afkSeconds: real): World {
    var t := move.step.thread;
    World(Next(w.system, move.step, afkSeconds),
          if Begins(move.step.action) && StageOf(w.system, t) == Ready then w.begun[t := move.clock] else w.begun,
          move.clock)
  }

  function Play(w: World, moves: seq<Timed>, afkSeconds: real): World
    decreases |moves|
  {
    if moves == [] then w else Play(Advance(w, moves[0], afkSeconds), moves[1..], afkSeconds)
  }

  function Steps(moves: seq<Timed>): (steps: seq<Step>)
    ensures |steps| == |moves| && forall i :: 0 <= i < |moves| ==> steps[i] == moves[i].step
  {
    seq(|moves|, i requires 0 <= i < |moves| => moves[i].step)
  }

  /** Time does not run backwards, readings tell the time, nobody forces a scene, only `ticker` ticks,
      and a call commits at most `span` after its first step. */
  ghost predicate Allowed(w: World, move: Timed, ticker: Thread, span: real) {
    var t, action := move.step.thread, move.step.action;
    && w.time <= move.clock
    && (Reading(action).Some? ==> Reading(action).value == move.clock)
    && !action.BeginForced?
    && (action.BeginTick? ==> t == ticker)
    && (action.Commit? && t in w.begun ==> move.clock <= w.begun[t] + span)
  }

  ghost predicate InTime(w: World, moves: seq<Timed>, afkSeconds: real, ticker: Thread, span: real)
    decreases |moves|
  {
    moves == []
    || (Allowed(w, moves[0], ticker, span)
        && InTime(Advance(w, moves[0], afkSeconds), moves[1..], afkSeconds, ticker, span))
  }

  function Start(s: MachineState, from: real): World {
    World(System(s, map[], []), map[], from)
  }

  /** The timed play is the untimed interleaving of its steps. */
  lemma {:induction false} PlayExecutes(w: World, moves: seq<Timed>, afkSeconds: real)
    ensures Play(w, moves, afkSeconds).system == Execute(w.system, afkSeconds, Steps(moves))
    decreases |moves|
  {
    if moves != [] {
      PlayExecutes(Advance(w, moves[0], afkSeconds), moves[1..], afkSeconds);
      assert Steps(moves)[1..] == Steps(moves[1..]);
    }
  }

  // ---- The invariant ----

  /** Every entry into AFK so far is at or before `bound`. */
  ghost predicate AfkBy(log: seq<Transition>, bound: real) {
    forall i :: 0 <= i < |log| && log[i].current == Afk ==> log[i].at <= bound
  }

  ghost predicate AfkFarFrom(log: seq<Transition>, at: real, gap: real) {
    forall i :: 0 <= i < |log| && log[i].current == Afk ==> at - log[i].at > gap
  }

  /** Later entries into AFK are not earlier in time. */
  ghost predicate AfkInOrder(log: seq<Transition>) {
    forall i, j :: 0 <= i < j < |log| && log[i].current == Afk && log[j].current == Afk ==> log[i].at <= log[j].at
  }

  predicate Asleep(scene: Scene) { scene == Afk || scene == Homecoming }

  /** What a thread about to request `target` has seen to: AFK is far enough from the entries so far;
      a waking scene follows an event of its own, or a tick that found the machine awake. */
  ghost predicate Justified(c: System, t: Thread, target: Scene, begun: real, gap: real, ticker: Thread, span: real) {
    if target == Afk then t == ticker && AfkFarFrom(c.log, begun, gap) && AfkBy(c.log, begun)
    else if target == Homecoming then true
    else begun <= c.machine.lastEventAt || (t == ticker && AfkBy(c.log, c.machine.lastEventAt + span))
  }

  ghost predicate StageHolds(w: World, t: Thread, stage: Stage, gap: real, ticker: Thread, span: real) {
    match stage
    case Ready => true
    case TickTimed(now) => t == ticker && t in w.begun && w.begun[t] == now <= w.time && AfkBy(w.system.log, now)
    case TextNoted(_) => t in w.begun && w.begun[t] <= w.system.machine.lastEventAt
    case Pending(r) =>
      t in w.begun && w.begun[t] <= w.time && Justified(w.system, t, r.target, w.begun[t], gap, ticker, span)
    case Armed(r, now) =>
      && t in w.begun && w.begun[t] <= now <= w.time
      && Justified(w.system, t, r.target, w.begun[t], gap, ticker, span)
  }

  ghost predicate PastHolds(w: World, gap: real, span: real) {
    && w.system.machine.lastEventAt <= w.time
    && (forall i :: 0 <= i < |w.system.log| ==> w.system.log[i].at <= w.time)
    && AfkSpaced(w.system.log, gap) && AfkInOrder(w.system.log)
    && (!Asleep(w.system.machine.scene) ==> AfkBy(w.system.log, w.system.machine.lastEventAt + span))
  }

  ghost predicate Holds(w: World, afkSeconds: real, ticker: Thread, span: real) {
    && PastHolds(w, afkSeconds - span, span)
    && (forall t :: t in w.system.stages ==>
          StageHolds(w, t, w.system.stages[t], afkSeconds - span, ticker, span))
  }

  /** Another thread's stage keeps holding while time and events only move on and the log gains
      nothing, or gains an entry that is not into AFK, or gains one from the ticking thread. */
  lemma OthersHold(w: World, w': World, u: Thread, stage: Stage, gap: real, ticker: Thread, span: real, mover: Thread)
    requires StageHolds(w, u, stage, gap, ticker, span) && u != mover
    requires w.time <= w'.time && w.system.machine.lastEventAt <= w'.system.machine.lastEventAt
    requires u in w.begun ==> u in w'.begun && w'.begun[u] == w.begun[u]
    requires w'.system.log == w.system.log
             || (|w'.system.log| == |w.system.log| + 1 && w'.system.log[..|w.system.log|] == w.system.log
                 && (mover == ticker || w'.system.log[|w.system.log|].current != Afk))
    ensures StageHolds(w', u, stage, gap, ticker, span)
  {
    if u == ticker {
      assert forall i :: 0 <= i < |w'.system.log| && w'.system.log[i].current == Afk ==>
          i < |w.system.log| && w.system.log[i] == w'.system.log[i];
    }
  }

  /** What one move does to time, events and log, as far as the other threads are concerned. */
  lemma MovesOn(w: World, move: Timed, afkSeconds: real, ticker: Thread, span: real)
    requires Holds(w, afkSeconds, ticker, span) && Allowed(w, move, ticker, span)
    ensures var w', t := Advance(w, move, afkSeconds), move.step.thread;
            && w.time <= w'.time && w.system.machine.lastEventAt <= w'.system.machine.lastEventAt <= w'.time
            && (forall u :: u != t ==>
                  (u in w'.begun <==> u in w.begun) && (u in w.begun ==> w'.begun[u] == w.begun[u]))
            && (forall u :: u != t ==> StageOf(w'.system, u) == StageOf(w.system, u))
            && (w'.system.log == w.system.log
                || (|w'.system.log| == |w.system.log| + 1 && w'.system.log[..|w.system.log|] == w.system.log
                    && (t == ticker || w'.system.log[|w.system.log|].current != Afk)))
  {
    var t := move.step.thread;
    assert StageHolds(w, t, StageOf(w.system, t), afkSeconds - span, ticker, span);
  }

  lemma OthersKeepHolding(w: World, move: Timed, afkSeconds: real, ticker: Thread, span: real)
    requires Holds(w, afkSeconds, ticker, span) && Allowed(w, move, ticker, span)
    ensures var w' := Advance(w, move, afkSeconds);
            forall u :: u in w'.system.stages && u != move.step.thread
              ==> StageHolds(w', u, w'.system.stages[u], afkSeconds - span, ticker, span)
  {
    MovesOn(w, move, afkSeconds, ticker, span);
    var w', t := Advance(w, move, afkSeconds), move.step.thread;
    forall u | u in w'.system.stages && u != t
      ensures StageHolds(w', u, w'.system.stages[u], afkSeconds - span, ticker, span)
    {
      assert StageHolds(w, u, StageOf(w.system, u), afkSeconds - span, ticker, span);
      OthersHold(w, w', u, StageOf(w.system, u), afkSeconds - span, ticker, span, t);
    }
  }

  /** The moving thread's own next stage, and what has happened so far. */
  ghost predicate OwnHolds(w: World, move: Timed, afkSeconds: real, ticker: Thread, span: real) {
    var w', t := Advance(w, move, afkSeconds), move.step.thread;
    PastHolds(w', afkSeconds - span, span)
    && StageHolds(w', t, StageOf(w'.system, t), afkSeconds - span, ticker, span)
  }

  lemma BeginTickHolds(w: World, move: Timed, afkSeconds: real, ticker: Thread, span: real)
    requires Holds(w, afkSeconds, ticker, span) && Allowed(w, move, ticker, span)
    requires move.step.action.BeginTick?
    ensures OwnHolds(w, move, afkSeconds, ticker, span)
  {
    assert StageHolds(w, move.step.thread, StageOf(w.system, move.step.thread), afkSeconds - span, ticker, span);
  }

  lemma TickLockHolds(w: World, move: Timed, afkSeconds: real, ticker: Thread, span: real)
    requires Holds(w, afkSeconds, ticker, span) && Allowed(w, move, ticker, span)
    requires move.step.action.TickLock?
    ensures OwnHolds(w, move, afkSeconds, ticker, span)
  {
    assert StageHolds(w, move.step.thread, StageOf(w.system, move.step.thread), afkSeconds - span, ticker, span);
  }

  lemma TextHolds(w: World, move: Timed, afkSeconds: real, ticker: Thread, span: real)
    requires Holds(w, afkSeconds, ticker, span) && Allowed(w, move, ticker, span)
    requires move.step.action.BeginText? || move.step.action.ClassifyOrWake?
    ensures OwnHolds(w, move, afkSeconds, ticker, span)
  {
    assert StageHolds(w, move.step.thread, StageOf(w.system, move.step.thread), afkSeconds - span, ticker, span);
  }

  lemma GameHolds(w: World, move: Timed, afkSeconds: real, ticker: Thread, span: real)
    requires Holds(w, afkSeconds, ticker, span) && Allowed(w, move, ticker, span)
    requires move.step.action.BeginEnter? || move.step.action.BeginExit? || move.step.action.BeginHomecoming?
    ensures OwnHolds(w, move, afkSeconds, ticker, span)
  {
    assert StageHolds(w, move.step.thread, StageOf(w.system, move.step.thread), afkSeconds - span, ticker, span);
  }

  /** One more entry into AFK, far enough from the ones before and not earlier. */
  lemma AppendKeepsSpacing(log: seq<Transition>, last: Transition, gap: real)
    requires AfkSpaced(log, gap) && AfkInOrder(log)
    requires last.current == Afk ==> AfkFarFrom(log, last.at, gap) && AfkBy(log, last.at)
    ensures AfkSpaced(log + [last], gap) && AfkInOrder(log + [last])
  {
  }

  lemma AppendKeepsBy(log: seq<Transition>, last: Transition, bound: real)
    requires AfkBy(log, bound) && last.current != Afk
    ensures AfkBy(log + [last], bound)
  {
  }

  /** Whoever commits a waking scene in time has an event noted late enough. */
  lemma WakingIsJustified(w: World, t: Thread, target: Scene, at: real, gap: real, ticker: Thread, span: real)
    requires PastHolds(w, gap, span) && t in w.begun && w.time <= at <= w.begun[t] + span && !Asleep(target)
    requires Justified(w.system, t, target, w.begun[t], gap, ticker, span)
    ensures AfkBy(w.system.log, w.system.machine.lastEventAt + span)
  {
  }

  /** A committed transition keeps the past in order. */
  lemma TransitionKeepsPast(w: World, w': World, t: Thread, r: Request, now: real, gap: real, ticker: Thread,
                            span: real)
    requires PastHolds(w, gap, span) && t in w.begun && w.begun[t] <= now <= w.time <= w'.time <= w.begun[t] + span
    requires Justified(w.system, t, r.target, w.begun[t], gap, ticker, span)
    requires w'.system.machine.scene == r.target && w'.system.machine.lastEventAt == w.system.machine.lastEventAt
    requires |w'.system.log| > 0 && w'.system.log == w.system.log + [w'.system.log[|w'.system.log| - 1]]
    requires var last := w'.system.log[|w'.system.log| - 1]; last.current == r.target && last.at == now
    ensures PastHolds(w', gap, span)
  {
    var last := w'.system.log[|w'.system.log| - 1];
    AppendKeepsSpacing(w.system.log, last, gap);
    if !Asleep(r.target) {
      WakingIsJustified(w, t, r.target, w'.time, gap, ticker, span);
      AppendKeepsBy(w.system.log, last, w.system.machine.lastEventAt + span);
    }
  }

  lemma CommitHolds(w: World, move: Timed, afkSeconds: real, ticker: Thread, span: real)
    requires Holds(w, afkSeconds, ticker, span) && Allowed(w, move, ticker, span)
    requires move.step.action.Commit?
    ensures OwnHolds(w, move, afkSeconds, ticker, span)
  {
    var w', t := Advance(w, move, afkSeconds), move.step.thread;
    var stage := StageOf(w.system, t);
    assert StageHolds(w, t, stage, afkSeconds - span, ticker, span);
    if stage.Armed? && TransitionSection(w.system.machine, stage.request, stage.now).1.Some? {
      TransitionKeepsPast(w, w', t, stage.request, stage.now, afkSeconds - span, ticker, span);
    }
  }

  lemma ReadingHolds(w: World, move: Timed, afkSeconds: real, ticker: Thread, span: real)
    requires Holds(w, afkSeconds, ticker, span) && Allowed(w, move, ticker, span)
    requires move.step.action.ReadClock?
    ensures OwnHolds(w, move, afkSeconds, ticker, span)
  {
    assert StageHolds(w, move.step.thread, StageOf(w.system, move.step.thread), afkSeconds - span, ticker, span);
  }

  lemma MoveHolds(w: World, move: Timed, afkSeconds: real, ticker: Thread, span: real)
    requires Holds(w, afkSeconds, ticker, span) && Allowed(w, move, ticker, span)
    ensures Holds(Advance(w, move, afkSeconds), afkSeconds, ticker, span)
  {
    var a := move.step.action;
    OthersKeepHolding(w, move, afkSeconds, ticker, span);
    if a.BeginTick? {
      BeginTickHolds(w, move, afkSeconds, ticker, span);
    } else if a.TickLock? {
      TickLockHolds(w, move, afkSeconds, ticker, span);
    } else if a.BeginText? || a.ClassifyOrWake? {
      TextHolds(w, move, afkSeconds, ticker, span);
    } else if a.Commit? {
      CommitHolds(w, move, afkSeconds, ticker, span);
    } else if a.ReadClock? {
      ReadingHolds(w, move, afkSeconds, ticker, span);
    } else {
      GameHolds(w, move, afkSeconds, ticker, span);
    }
    var w', t := Advance(w, move, afkSeconds), move.step.thread;
    assert t in w'.system.stages ==> w'.system.stages[t] == StageOf(w'.system, t);
  }

  lemma {:induction false} PlaysHold(w: World, moves: seq<Timed>, afkSeconds: real, ticker: Thread, span: real)
    requires Holds(w, afkSeconds, ticker, span) && InTime(w, moves, afkSeconds, ticker, span)
    ensures Holds(Play(w, moves, afkSeconds), afkSeconds, ticker, span)
    decreases |moves|
  {
    if moves != [] {
      MoveHolds(w, moves[0], afkSeconds, ticker, span);
      PlaysHold(Advance(w, moves[0], afkSeconds), moves[1..], afkSeconds, ticker, span);
    }
  }

  /** With one ticking thread and calls that take at most `span`, any two entries into AFK are more
      than `afkSeconds - span` apart, however the calls of other threads interleave. */
  lemma OneTickerKeepsSpacing(s: MachineState, from: real, moves: seq<Timed>, afkSeconds: real,
                              ticker: Thread, span: real)
    requires s.lastEventAt <= from && InTime(Start(s, from), moves, afkSeconds, ticker, span)
    ensures AfkSpaced(Execute(System(s, map[], []), afkSeconds, Steps(moves)).log, afkSeconds - span)
  {
    PlaysHold(Start(s, from), moves, afkSeconds, ticker, span);
    PlayExecutes(Start(s, from), moves, afkSeconds);
  }

  // ---- The bound is sharp ----

  ghost predicate Reaches(w: World, w': World, afkSeconds: real, ticker: Thread, span: real) {
    exists moves: seq<Timed> :: InTime(w, moves, afkSeconds, ticker, span) && Play(w, moves, afkSeconds) == w'
  }

  lemma {:induction false} Join(w: World, xs: seq<Timed>, ys: seq<Timed>, afkSeconds: real, ticker: Thread, span: real)
    requires InTime(w, xs, afkSeconds, ticker, span)
    requires InTime(Play(w, xs, afkSeconds), ys, afkSeconds, ticker, span)
    ensures InTime(w, xs + ys, afkSeconds, ticker, span)
    ensures Play(w, xs + ys, afkSeconds) == Play(Play(w, xs, afkSeconds), ys, afkSeconds)
    decreases |xs|
  {
    if xs == [] {
      assert [] + ys == ys;
    } else {
      Join(Advance(w, xs[0], afkSeconds), xs[1..], ys, afkSeconds, ticker, span);
      assert (xs + ys)[0] == xs[0] && (xs + ys)[1..] == xs[1..] + ys;
    }
  }

  lemma OneMove(w: World, move: Timed, afkSeconds: real, ticker: Thread, span: real)
    requires Allowed(w, move, ticker, span)
    ensures InTime(w, [move], afkSeconds, ticker, span) && Play(w, [move], afkSeconds) == Advance(w, move, afkSeconds)
  {
    var moves := [move];
    var w' := Advance(w, moves[0], afkSeconds);
    assert moves[1..] == [];
    assert InTime(w', moves[1..], afkSeconds, ticker, span);
    assert Play(w', moves[1..], afkSeconds) == w';
  }

  lemma Then(a: World, b: World, move: Timed, afkSeconds: real, ticker: Thread, span: real) returns (c: World)
    requires Reaches(a, b, afkSeconds, ticker, span) && Allowed(b, move, ticker, span)
    ensures c == Advance(b, move, afkSeconds) && Reaches(a, c, afkSeconds, ticker, span)
  {
    c := Advance(b, move, afkSeconds);
    var xs: seq<Timed> :| InTime(a, xs, afkSeconds, ticker, span) && Play(a, xs, afkSeconds) == b;
    OneMove(b, move, afkSeconds, ticker, span);
    Join(a, xs, [move], afkSeconds, ticker, span);
  }

  /** A tick after long enough without an event decides on AFK. */
  lemma Decides(a: World, b: World, t: Thread, now: real, afkSeconds: real, span: real) returns (c: World)
    requires Reaches(a, b, afkSeconds, t, span) && StageOf(b.system, t) == Ready && b.time <= now
    requires !Asleep(b.system.machine.scene) && b.system.machine.expiresAt == None
    requires now - b.system.machine.lastEventAt > afkSeconds
    ensures Reaches(a, c, afkSeconds, t, span) && c.time == now && t in c.begun && c.begun[t] == now
    ensures c.system == Await(b.system, t, Some(Request(Afk, "idle_timeout", None, false)))
  {
    c := Then(a, b, Timed(Step(t, BeginTick(now)), now), afkSeconds, t, span);
    c := Then(a, c, Timed(Step(t, TickLock), now), afkSeconds, t, span);
    assert c.system.stages == Await(b.system, t, Some(Request(Afk, "idle_timeout", None, false))).stages;
  }

  /** A text is noted and found to speak of a fight. */
  lemma Notes(a: World, b: World, u: Thread, at: real, afkSeconds: real, ticker: Thread, span: real)
    returns (c: World)
    requires Reaches(a, b, afkSeconds, ticker, span) && StageOf(b.system, u) == Ready && b.time <= at
    ensures Reaches(a, c, afkSeconds, ticker, span) && c.time == at && u in c.begun && c.begun[u] == at
    ensures forall t :: t != u ==> (t in c.begun <==> t in b.begun) && (t in b.begun ==> c.begun[t] == b.begun[t])
    ensures c.system.machine == NoteSection(b.system.machine, at) && c.system.log == b.system.log
    ensures StageOf(c.system, u) == Pending(Request(Combat, "assistant_combat_keyword", None, false))
    ensures forall t :: t != u ==> StageOf(c.system, t) == StageOf(b.system, t)
  {
    var fight := Text(false, false, true, false, false);
    c := Then(a, b, Timed(Step(u, BeginText(fight, at)), at), afkSeconds, ticker, span);
    c := Then(a, c, Timed(Step(u, ClassifyOrWake), at), afkSeconds, ticker, span);
  }

  /** A pending transition reads the clock and is committed. */
  lemma Commits(a: World, b: World, u: Thread, r: Request, at: real, afkSeconds: real, ticker: Thread, span: real)
    returns (c: World)
    requires Reaches(a, b, afkSeconds, ticker, span) && StageOf(b.system, u) == Pending(r) && b.time <= at
    requires u in b.begun && at <= b.begun[u] + span && r.target != b.system.machine.scene
    ensures Reaches(a, c, afkSeconds, ticker, span) && c.time == at && c.begun == b.begun
    ensures c.system.machine == TransitionSection(b.system.machine, r, at).0
    ensures c.system.log == b.system.log + [Transition(b.system.machine.scene, r.target, r.reason, at)]
    ensures StageOf(c.system, u) == Ready && forall t :: t != u ==> StageOf(c.system, t) == StageOf(b.system, t)
  {
    c := Then(a, b, Timed(Step(u, ReadClock(at)), at), afkSeconds, ticker, span);
    c := Then(a, c, Timed(Step(u, Commit), at), afkSeconds, ticker, span);
  }

  const TO_AFK := Request(Afk, "idle_timeout", None, false)
  const TO_COMBAT := Request(Combat, "assistant_combat_keyword", None, false)

  /** A tick decides on AFK; at the same instant another thread notes a text; both commit `span` later.
      The second entry follows at any distance that leaves the idle time to pass since the text. */
  lemma EarlySecondEntry(afkSeconds: real, span: real, distance: real) returns (w: World)
    requires afkSeconds >= 0.0 && span >= 0.0 && distance >= 0.0 && distance > afkSeconds - span
    ensures Reaches(Start(Initial(0.0, 0.0), 0.0), w, afkSeconds, 1, span)
    ensures |w.system.log| == 3 && w.system.log[0].current == Afk && w.system.log[2].current == Afk
    ensures w.system.log[2].at - w.system.log[0].at == distance
  {
    var a, first := Start(Initial(0.0, 0.0), 0.0), afkSeconds + 1.0;
    var second := first + span + distance;
    assert Reaches(a, a, afkSeconds, 1, span) by {
      assert InTime(a, [], afkSeconds, 1, span) && Play(a, [], afkSeconds) == a;
    }
    w := Decides(a, a, 1, first, afkSeconds, span);
    w := Notes(a, w, 2, first, afkSeconds, 1, span);
    w := Commits(a, w, 1, TO_AFK, first + span, afkSeconds, 1, span);
    w := Commits(a, w, 2, TO_COMBAT, first + span, afkSeconds, 1, span);
    w := Decides(a, w, 1, second, afkSeconds, span);
    w := Commits(a, w, 1, TO_AFK, second, afkSeconds, 1, span);
  }

  /** Every play keeps entries into AFK more than `gap` apart. */
  ghost predicate Guarantees(afkSeconds: real, ticker: Thread, span: real, gap: real) {
    forall s: MachineState, from: real, moves: seq<Timed> ::
      s.lastEventAt <= from && InTime(Start(s, from), moves, afkSeconds, ticker, span)
      ==> AfkSpaced(Play(Start(s, from), moves, afkSeconds).system.log, gap)
  }

  /** The distance that one ticking thread guarantees is the threshold less the longest call, and no
      more; if calls can be longer than the threshold, merely that entries are not out of order. */
  lemma GuaranteedSpacingExactly(afkSeconds: real, span: real, gap: real)
    requires afkSeconds >= 0.0 && span >= 0.0
    ensures Guarantees(afkSeconds, 1, span, gap) <==> gap <= afkSeconds - span || gap < 0.0
  {
    if gap <= afkSeconds - span || gap < 0.0 {
      forall s: MachineState, from: real, moves: seq<Timed>
        | s.lastEventAt <= from && InTime(Start(s, from), moves, afkSeconds, 1, span)
        ensures AfkSpaced(Play(Start(s, from), moves, afkSeconds).system.log, gap)
      {
        PlaysHold(Start(s, from), moves, afkSeconds, 1, span);
      }
    } else {
      var w := EarlySecondEntry(afkSeconds, span, gap);
      var moves: seq<Timed> :| InTime(Start(Initial(0.0, 0.0), 0.0), moves, afkSeconds, 1, span)
                               && Play(Start(Initial(0.0, 0.0), 0.0), moves, afkSeconds) == w;
      assert !AfkSpaced(w.system.log, gap);
    }
  }
}
