/** The scene machine with the lock sections of any number of threads interleaved.

    A thread is between two of its atomic steps: reading the clock outside the
    lock, running a lock section, or starting a call. */
module SceneInterleaving {
  import opened Options
  import opened Scenes

  type Thread = nat

  datatype Stage =
    | Ready
    | TickTimed(now: real)                 // tick has read the clock, not yet taken the lock
    | TextNoted(text: Text)                // the event time is noted, the keywords not yet tested
    | Pending(request: Request)            // decided on a transition, clock not yet read
    | Armed(request: Request, now: real)   // clock read, transition lock not yet taken

  datatype System = System(machine: MachineState, stages: map<Thread, Stage>, log: seq<Transition>)

  datatype Action =
    | BeginTick(now: real)
    | TickLock
    | BeginText(text: Text, at: real)
    | ClassifyOrWake
    | BeginEnter(name: string, at: real)
    | BeginExit(at: real)
    | BeginHomecoming
    | BeginForced(target: Scene, why: string)
    | ReadClock(now: real)
    | Commit

  datatype Step = Step(thread: Thread, action: Action)

  function StageOf(c: System, t: Thread): Stage {
    if t in c.stages then c.stages[t] else Ready
  }

  function Move(c: System, t: Thread, stage: Stage): System {
    c.(stages := c.stages[t := stage])
  }

  function Await(c: System, t: Thread, request: Option<Request>): System {
    Move(c, t, if request.Some? then Pending(request.value) else Ready)
  }

  /** One atomic step; a step its thread is not ready for changes nothing. */
  function Next(c: System, step: Step, afkSeconds: real): System {
    var t := step.thread;
    match (step.action, StageOf(c, t))
    case (BeginTick(now), Ready) => Move(c, t, TickTimed(now))
    case (TickLock, TickTimed(now)) =>
      var (m, r) := TickSection(c.machine, afkSeconds, now);
      Await(c.(machine := m), t, r)
    case (BeginText(text, at), Ready) =>
      if text.empty then c else Move(c.(machine := NoteSection(c.machine, at)), t, TextNoted(text))
    case (ClassifyOrWake, TextNoted(text)) =>
      var keyword := KeywordRequest(text);
      Await(c, t, if keyword.Some? then keyword else WakeSection(c.machine))
    case (BeginEnter(name, at), Ready) =>
      var (m, r) := EnterSection(c.machine, name, at);
      Move(c.(machine := m), t, Pending(r))
    case (BeginExit(at), Ready) =>
      var (m, r) := ExitSection(c.machine, at);
      Move(c.(machine := m), t, Pending(r))
    case (BeginHomecoming, Ready) => Move(c, t, Pending(HOMECOMING_REQUEST))
    case (BeginForced(target, why), Ready) => Move(c, t, Pending(Request(target, why, None, true)))
    case (ReadClock(now), Pending(request)) => Move(c, t, Armed(request, now))
    case (Commit, Armed(request, now)) =>
      var (m, transition) := TransitionSection(c.machine, request, now);
      Move(c.(machine := m, log := AppendSome(c.log, transition)), t, Ready)
    case _ => c
  }

  function Execute(c: System, afkSeconds: real, steps: seq<Step>): System
    decreases |steps|
  {
    if steps == [] then c else Execute(Next(c, steps[0], afkSeconds), afkSeconds, steps[1..])
  }

  ghost predicate FittingStage(stage: Stage) {
    match stage
    case Pending(request) => Fitting(request)
    case Armed(request, _) => Fitting(request)
    case _ => true
  }

  ghost predicate Safe(c: System) {
    Consistent(c.machine) && forall t :: t in c.stages ==> FittingStage(c.stages[t])
  }

  /** The timer invariant survives every interleaving, forced scenes and clocks that jump included. */
  lemma {:induction false} TimersSurviveInterleaving(c: System, afkSeconds: real, steps: seq<Step>)
    requires Safe(c)
    ensures Safe(Execute(c, afkSeconds, steps))
    decreases |steps|
  {
    if steps != [] {
      assert FittingStage(StageOf(c, steps[0].thread));
      TimersSurviveInterleaving(Next(c, steps[0], afkSeconds), afkSeconds, steps[1..]);
    }
  }

  /** The transitions lead from one scene to another without a gap. */
  ghost predicate Path(from: Scene, log: seq<Transition>, to: Scene) {
    if log == [] then from == to
    else log[|log| - 1].current == to && Path(from, log[..|log| - 1], log[|log| - 1].previous)
  }

  /** However threads interleave, the committed transitions form one path to the current scene. */
  lemma {:induction false} TransitionsFormAPath(c: System, afkSeconds: real, from: Scene, steps: seq<Step>)
    requires Path(from, c.log, c.machine.scene)
    ensures var c' := Execute(c, afkSeconds, steps); Path(from, c'.log, c'.machine.scene)
    decreases |steps|
  {
    if steps != [] {
      var c' := Next(c, steps[0], afkSeconds);
      assert Path(from, c'.log, c'.machine.scene) by {
        assert c'.log != c.log ==> c'.log[..|c'.log| - 1] == c.log;
      }
      TransitionsFormAPath(c', afkSeconds, from, steps[1..]);
    }
  }

  /** The steps of one call when no other thread gets in between. */
  function StepsOf(call: Call, t: Thread): seq<Step> {
    match call
    case Tick(now, at) => [Step(t, BeginTick(now)), Step(t, TickLock)] + Finish(t, at)
    case AssistantText(text, noted, at) => [Step(t, BeginText(text, noted)), Step(t, ClassifyOrWake)] + Finish(t, at)
    case GameEnter(name, noted, at) => [Step(t, BeginEnter(name, noted))] + Finish(t, at)
    case GameExit(noted, at) => [Step(t, BeginExit(noted))] + Finish(t, at)
    case LongGapReturn(at) => [Step(t, BeginHomecoming)] + Finish(t, at)
  }

  function Finish(t: Thread, at: real): seq<Step> {
    [Step(t, ReadClock(at)), Step(t, Commit)]
  }

  lemma ExecuteOne(c: System, afkSeconds: real, first: Step, rest: seq<Step>)
    ensures Execute(c, afkSeconds, [first] + rest) == Execute(Next(c, first, afkSeconds), afkSeconds, rest)
  {
    assert ([first] + rest)[1..] == rest;
  }

  /** Reading the clock and committing is exactly `Perform`; a thread with nothing to do idles. */
  lemma FinishPerforms(c: System, t: Thread, afkSeconds: real, at: real, r: Option<Request>)
    requires StageOf(c, t) == (if r.Some? then Pending(r.value) else Ready)
    ensures var (m, transition) := Perform(c.machine, r, at);
            var c' := Execute(c, afkSeconds, Finish(t, at));
            c'.machine == m && c'.log == AppendSome(c.log, transition) && StageOf(c', t) == Ready
  {
    ExecuteOne(c, afkSeconds, Step(t, ReadClock(at)), [Step(t, Commit)]);
    var c1 := Next(c, Step(t, ReadClock(at)), afkSeconds);
    ExecuteOne(c1, afkSeconds, Step(t, Commit), []);
    assert Finish(t, at) == [Step(t, ReadClock(at))] + [Step(t, Commit)];
    assert [Step(t, Commit)] == [Step(t, Commit)] + [];
  }

  /** A sequential call is the interleaving in which its own steps run back to back. */
  lemma SequentialCallIsAnInterleaving(c: System, t: Thread, afkSeconds: real, call: Call)
    requires StageOf(c, t) == Ready
    ensures var (m, transition) := Apply(c.machine, afkSeconds, call);
            var c' := Execute(c, afkSeconds, StepsOf(call, t));
            c'.machine == m && c'.log == AppendSome(c.log, transition) && StageOf(c', t) == Ready
  {
    match call {
      case Tick(now, at) =>
        var c1 := Next(c, Step(t, BeginTick(now)), afkSeconds);
        var c2 := Next(c1, Step(t, TickLock), afkSeconds);
        ExecuteOne(c, afkSeconds, Step(t, BeginTick(now)), [Step(t, TickLock)] + Finish(t, at));
        ExecuteOne(c1, afkSeconds, Step(t, TickLock), Finish(t, at));
        assert StepsOf(call, t) == [Step(t, BeginTick(now))] + ([Step(t, TickLock)] + Finish(t, at));
        FinishPerforms(c2, t, afkSeconds, at, TickSection(c.machine, afkSeconds, now).1);
      case AssistantText(text, noted, at) =>
        var c1 := Next(c, Step(t, BeginText(text, noted)), afkSeconds);
        var c2 := Next(c1, Step(t, ClassifyOrWake), afkSeconds);
        ExecuteOne(c, afkSeconds, Step(t, BeginText(text, noted)), [Step(t, ClassifyOrWake)] + Finish(t, at));
        ExecuteOne(c1, afkSeconds, Step(t, ClassifyOrWake), Finish(t, at));
        assert StepsOf(call, t) == [Step(t, BeginText(text, noted))] + ([Step(t, ClassifyOrWake)] + Finish(t, at));
        var keyword := KeywordRequest(text);
        FinishPerforms(c2, t, afkSeconds, at,
          if text.empty then None else if keyword.Some? then keyword else WakeSection(c1.machine));
      case GameEnter(name, noted, at) =>
        var c1 := Next(c, Step(t, BeginEnter(name, noted)), afkSeconds);
        ExecuteOne(c, afkSeconds, Step(t, BeginEnter(name, noted)), Finish(t, at));
        FinishPerforms(c1, t, afkSeconds, at, Some(EnterSection(c.machine, name, noted).1));
      case GameExit(noted, at) =>
        var c1 := Next(c, Step(t, BeginExit(noted)), afkSeconds);
        ExecuteOne(c, afkSeconds, Step(t, BeginExit(noted)), Finish(t, at));
        FinishPerforms(c1, t, afkSeconds, at, Some(ExitSection(c.machine, noted).1));
      case LongGapReturn(at) =>
        var c1 := Next(c, Step(t, BeginHomecoming), afkSeconds);
        ExecuteOne(c, afkSeconds, Step(t, BeginHomecoming), Finish(t, at));
        FinishPerforms(c1, t, afkSeconds, at, Some(HOMECOMING_REQUEST));
    }
  }

  /** Hence every sequential call, too, keeps the timer invariant. */
  lemma CallsKeepTimers(s: MachineState, afkSeconds: real, call: Call)
    requires Consistent(s)
    ensures Consistent(Apply(s, afkSeconds, call).0)
  {
    var c := System(s, map[], []);
    SequentialCallIsAnInterleaving(c, 0, afkSeconds, call);
    TimersSurviveInterleaving(c, afkSeconds, StepsOf(call, 0));
  }
}
