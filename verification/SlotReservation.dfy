/** Slot reservation: mute, gate, dice and cooldown, in that order. */
module SlotReservation {
  import opened DensityGovernors
  import opened FiniteSets
  import opened Reals

  datatype Settings = Settings(tuning: Tuning, probability: real, cooldown: real)

  const DEFAULT_SETTINGS := Settings(DEFAULT_TUNING, 0.2, 8.0)

  datatype Observer = Observer(governor: Governor, lastEmitAt: real, muted: bool)

  /** One call of the reservation: `now` is read before the lock is taken, so that other threads
      may reserve between it and the two readings of the gate. */
  datatype Attempt = Attempt(force: bool, now: real, prunedAt: real, energyAt: real, roll: real)

  function ReserveSlot(o: Observer, s: Settings, a: Attempt): (Observer, bool) {
    if o.muted then (o, false)
    else
      var (g, gated) :=
        if a.force then (o.governor, 1.0) else Gate(o.governor, s.tuning, s.probability, a.prunedAt, a.energyAt);
      var o1 := o.(governor := g);
      if !a.force && (gated <= 0.0 || a.roll > gated) then (o1, false)
      else if a.now - o.lastEmitAt < s.cooldown then (o1, false)
      else (Observer(RecordEmission(g, s.tuning, a.now), a.now, o.muted), true)
  }

  datatype ObserverCall = Reserve(attempt: Attempt) | SetMuted(muted: bool)

  /** All emissions so far: when, and whether forced. */
  datatype Log = Log(times: seq<real>, forced: seq<bool>)

  function Emit(log: Log, a: Attempt): Log {
    Log(log.times + [a.now], log.forced + [a.force])
  }

  /** The observer and the full emission log after a run. */
  function Run(o: Observer, s: Settings, calls: seq<ObserverCall>): (Observer, Log) {
    if calls == [] then (o, Log([], []))
    else
      var (o1, log) := Run(o, s, calls[..|calls| - 1]);
      match calls[|calls| - 1]
      case SetMuted(muted) => (o1.(muted := muted), log)
      case Reserve(a) =>
        var (o2, granted) := ReserveSlot(o1, s, a);
        (o2, if granted then Emit(log, a) else log)
  }

  function Initial(builtAt: real): Observer {
    Observer(Governor([], 1.0, builtAt), 0.0, false)
  }

  /** The latest reading taken under the lock. */
  function Horizon(builtAt: real, calls: seq<ObserverCall>): real {
    if calls == [] then builtAt
    else
      var last := calls[|calls| - 1];
      if last.Reserve? then last.attempt.prunedAt else Horizon(builtAt, calls[..|calls| - 1])
  }

  /** Readings under the lock never run backwards, and for unforced attempts `now` is at most `lag`
      older than them.  A forced attempt reads the clock only once: its `prunedAt` is merely some moment
      at which it holds the lock, however late.
      Nothing is said about the order of the `now` readings of different calls. */
  ghost predicate Timely(builtAt: real, calls: seq<ObserverCall>, lag: real) {
    calls == [] ||
    (var before, last := calls[..|calls| - 1], calls[|calls| - 1];
     && Timely(builtAt, before, lag)
     && (last.Reserve? ==>
           && Horizon(builtAt, before) <= last.attempt.prunedAt <= last.attempt.energyAt
           && last.attempt.now <= last.attempt.prunedAt
           && (!last.attempt.force ==> last.attempt.prunedAt <= last.attempt.now + lag)))
  }

  ghost predicate Sane(s: Settings) {
    s.cooldown >= 0.0 && s.tuning.window >= 0.0
  }

  // ---- The deque and the full log ----

  /** `kept` is what remains of the times after dropping a prefix of times before `bound`. */
  ghost predicate SuffixFrom(kept: seq<real>, times: seq<real>, bound: real) {
    && |kept| <= |times|
    && kept == times[|times| - |kept|..]
    && (forall i :: 0 <= i < |times| - |kept| ==> times[i] < bound)
  }

  ghost predicate Narrow(kept: seq<real>, window: real) {
    kept != [] ==> kept[|kept| - 1] - kept[0] <= window
  }

  /** Consecutive times are at least one cooldown apart. */
  ghost predicate Spaced(times: seq<real>, cooldown: real) {
    |times| < 2 ||
    (Spaced(times[..|times| - 1], cooldown) && times[|times| - 1] - times[|times| - 2] >= cooldown)
  }

  ghost predicate Sorted(times: seq<real>) {
    forall i, j :: 0 <= i <= j < |times| ==> times[i] <= times[j]
  }

  /** The deque is the part of the full log that no pruning so far found too old, and the log's
      entries are a cooldown apart, none later than the horizon. */
  ghost predicate Tracks(o: Observer, s: Settings, times: seq<real>, horizon: real) {
    InOrder(o.governor.emissions, times, s.tuning.window, horizon) && Cooled(o.lastEmitAt, times, s.cooldown, horizon)
  }

  ghost predicate InOrder(kept: seq<real>, times: seq<real>, window: real, horizon: real) {
    SuffixFrom(kept, times, horizon - window) && Narrow(kept, window)
  }

  ghost predicate Cooled(lastEmitAt: real, times: seq<real>, cooldown: real, horizon: real) {
    Spaced(times, cooldown) && (times != [] ==> lastEmitAt == times[|times| - 1] <= horizon)
  }

  /** `n` cooldowns, one after the other. */
  ghost function Cooldowns(n: nat, cooldown: real): real {
    if n == 0 then 0.0 else Cooldowns(n - 1, cooldown) + cooldown
  }

  lemma {:induction false} CooldownsMultiply(n: nat, steps: real, cooldown: real)
    requires steps == n as real
    ensures Cooldowns(n, cooldown) == steps * cooldown
  {
    if n > 0 {
      CooldownsMultiply(n - 1, steps - 1.0, cooldown);
      assert steps * cooldown == (steps - 1.0) * cooldown + cooldown;
    }
  }

  lemma {:induction false} SpacedPairs(times: seq<real>, cooldown: real, i: nat, j: nat)
    requires Spaced(times, cooldown) && i <= j < |times|
    ensures times[j] - times[i] >= Cooldowns(j - i, cooldown)
    decreases j - i, |times|
  {
    if j < |times| - 1 {
      SpacedPairs(times[..|times| - 1], cooldown, i, j);
    } else if i < j {
      SpacedPairs(times[..|times| - 1], cooldown, i, j - 1);
    }
  }

  lemma {:induction false} CooldownsNonNegative(n: nat, cooldown: real)
    requires cooldown >= 0.0
    ensures Cooldowns(n, cooldown) >= 0.0
  {
    if n > 0 {
      CooldownsNonNegative(n - 1, cooldown);
    }
  }

  lemma SpacedIsSorted(times: seq<real>, cooldown: real)
    requires Spaced(times, cooldown) && cooldown >= 0.0
    ensures Sorted(times)
  {
    forall i, j | 0 <= i <= j < |times| ensures times[i] <= times[j] {
      SpacedPairs(times, cooldown, i, j);
      CooldownsNonNegative(j - i, cooldown);
    }
  }

  lemma PruneKeepsSuffix(times: seq<real>, kept: seq<real>, cutoff: real, bound: real)
    requires SuffixFrom(kept, times, bound) && cutoff <= bound
    ensures SuffixFrom(Pruned(kept, cutoff), times, bound)
  {
    PrunedIsSuffix(kept, cutoff);
    var kept' := Pruned(kept, cutoff);
    forall i | 0 <= i < |times| - |kept'| ensures times[i] < bound {
      if i >= |times| - |kept| {
        assert kept[i - (|times| - |kept|)] == times[i];
      }
    }
    assert times[|times| - |kept|..][|kept| - |kept'|..] == times[|times| - |kept'|..];
  }

  lemma PruneKeepsNarrow(times: seq<real>, kept: seq<real>, cutoff: real, window: real, bound: real)
    requires Sorted(times) && SuffixFrom(kept, times, bound) && Narrow(kept, window)
    ensures Narrow(Pruned(kept, cutoff), window)
  {
    PrunedIsSuffix(kept, cutoff);
    var kept' := Pruned(kept, cutoff);
    if kept' != [] {
      assert kept'[0] == kept[|kept| - |kept'|] && kept'[|kept'| - 1] == kept[|kept| - 1];
      assert kept[0] == times[|times| - |kept|] && kept[|kept| - |kept'|] == times[|times| - |kept'|];
    }
  }

  /** After the gate has pruned at `at`, the deque is exactly the part of the log no older than the window. */
  lemma GateSeesTheWindow(kept: seq<real>, times: seq<real>, window: real, horizon: real, at: real)
    requires InOrder(kept, times, window, horizon) && Sorted(times) && horizon <= at
    ensures InOrder(Pruned(kept, at - window), times, window, at)
    ensures forall i :: |times| - |Pruned(kept, at - window)| <= i < |times| ==> times[i] >= at - window
  {
    var cutoff := at - window;
    PruneKeepsSuffix(times, kept, cutoff, cutoff);
    PruneKeepsNarrow(times, kept, cutoff, window, horizon - window);
    PrunedIsSuffix(kept, cutoff);
    var kept' := Pruned(kept, cutoff);
    assert kept' != [] ==> kept'[0] == times[|times| - |kept'|];
  }

  lemma RecordKeepsNarrow(kept: seq<real>, at: real, window: real)
    requires window >= 0.0
    ensures Narrow(Pruned(kept + [at], at - window), window)
  {
    PrunedIsSuffix(kept + [at], at - window);
  }

  lemma AppendKeepsSuffix(kept: seq<real>, times: seq<real>, at: real, bound: real)
    requires SuffixFrom(kept, times, bound)
    ensures SuffixFrom(kept + [at], times + [at], bound)
  {
  }

  lemma RecordKeepsOrder(kept: seq<real>, times: seq<real>, window: real, horizon: real, at: real)
    requires InOrder(kept, times, window, horizon) && at <= horizon && window >= 0.0
    ensures InOrder(Pruned(kept + [at], at - window), times + [at], window, horizon)
  {
    RecordKeepsNarrow(kept, at, window);
    AppendKeepsSuffix(kept, times, at, horizon - window);
    PruneKeepsSuffix(times + [at], kept + [at], at - window, horizon - window);
  }

  lemma EmissionKeepsCooled(lastEmitAt: real, times: seq<real>, cooldown: real, horizon: real, at: real)
    requires Cooled(lastEmitAt, times, cooldown, horizon) && at - lastEmitAt >= cooldown && at <= horizon
    ensures Cooled(at, times + [at], cooldown, horizon)
  {
    assert (times + [at])[..|times|] == times;
  }

  /** The deque as the gate leaves it; a forced or muted attempt does not touch it. */
  function Kept(o: Observer, s: Settings, a: Attempt): seq<real> {
    if a.force || o.muted then o.governor.emissions
    else Pruned(o.governor.emissions, a.prunedAt - s.tuning.window)
  }

  /** What a reservation does to the deque and the cooldown, and when it can be granted. */
  ghost predicate Effect(o: Observer, s: Settings, a: Attempt, o': Observer, granted: bool) {
    var kept := Kept(o, s, a);
    && o'.governor.emissions == (if granted then Pruned(kept + [a.now], a.now - s.tuning.window) else kept)
    && o'.lastEmitAt == (if granted then a.now else o.lastEmitAt)
    && (granted ==> !o.muted && a.now - o.lastEmitAt >= s.cooldown)
    && (granted && !a.force ==> |kept| < s.tuning.hardCap)
  }

  lemma ReserveSlotEffect(o: Observer, s: Settings, a: Attempt)
    ensures Effect(o, s, a, ReserveSlot(o, s, a).0, ReserveSlot(o, s, a).1)
  {
    DensityFactorRange(|Pruned(o.governor.emissions, a.prunedAt - s.tuning.window)|, s.tuning);
  }

  lemma ReservationKeepsOrder(o: Observer, s: Settings, times: seq<real>, horizon: real, a: Attempt,
                              o': Observer, granted: bool)
    requires Sane(s) && InOrder(o.governor.emissions, times, s.tuning.window, horizon) && Sorted(times)
    requires horizon <= a.prunedAt && a.now <= a.prunedAt && Effect(o, s, a, o', granted)
    ensures InOrder(o'.governor.emissions, if granted then times + [a.now] else times, s.tuning.window, a.prunedAt)
  {
    var kept := Kept(o, s, a);
    assert InOrder(kept, times, s.tuning.window, a.prunedAt) by {
      GateSeesTheWindow(o.governor.emissions, times, s.tuning.window, horizon, a.prunedAt);
    }
    if granted {
      RecordKeepsOrder(kept, times, s.tuning.window, a.prunedAt, a.now);
    }
  }

  lemma ReservationKeepsTracking(o: Observer, s: Settings, times: seq<real>, horizon: real, a: Attempt,
                                 o': Observer, granted: bool)
    requires Sane(s) && Tracks(o, s, times, horizon) && horizon <= a.prunedAt && a.now <= a.prunedAt
    requires Effect(o, s, a, o', granted)
    ensures Tracks(o', s, if granted then times + [a.now] else times, a.prunedAt)
  {
    SpacedIsSorted(times, s.cooldown);
    ReservationKeepsOrder(o, s, times, horizon, a, o', granted);
    if granted {
      EmissionKeepsCooled(o.lastEmitAt, times, s.cooldown, a.prunedAt, a.now);
    }
  }

  lemma {:induction false} RunsTrack(builtAt: real, s: Settings, calls: seq<ObserverCall>, lag: real)
    requires Sane(s) && Timely(builtAt, calls, lag)
    ensures var (o, log) := Run(Initial(builtAt), s, calls);
            Tracks(o, s, log.times, Horizon(builtAt, calls))
  {
    if calls != [] {
      var before, last := calls[..|calls| - 1], calls[|calls| - 1];
      RunsTrack(builtAt, s, before, lag);
      if last.Reserve? {
        var (o, log) := Run(Initial(builtAt), s, before);
        var (o', granted) := ReserveSlot(o, s, last.attempt);
        ReserveSlotEffect(o, s, last.attempt);
        ReservationKeepsTracking(o, s, log.times, Horizon(builtAt, before), last.attempt, o', granted);
      }
    }
  }

  /** All emissions, forced ones included, are at least one cooldown apart, in whatever order the
      threads read `now`. */
  lemma EmissionsAreCooled(builtAt: real, s: Settings, calls: seq<ObserverCall>, lag: real)
    requires Sane(s) && Timely(builtAt, calls, lag)
    ensures CooldownsApart(Run(Initial(builtAt), s, calls).1.times, s.cooldown)
  {
    RunsTrack(builtAt, s, calls, lag);
    SpacedIsApart(Run(Initial(builtAt), s, calls).1.times, s.cooldown);
  }

  ghost predicate CooldownsApart(times: seq<real>, cooldown: real) {
    forall i, j :: 0 <= i <= j < |times| ==> times[j] - times[i] >= (j - i) as real * cooldown
  }

  lemma SpacedIsApart(times: seq<real>, cooldown: real)
    requires Spaced(times, cooldown)
    ensures CooldownsApart(times, cooldown)
  {
    forall i, j | 0 <= i <= j < |times| ensures times[j] - times[i] >= (j - i) as real * cooldown {
      PairIsApart(times, cooldown, i, j, j - i, (j - i) as real);
    }
  }

  lemma PairIsApart(times: seq<real>, cooldown: real, i: nat, j: nat, steps: nat, gap: real)
    requires Spaced(times, cooldown) && i <= j < |times| && steps == j - i && gap == steps as real
    ensures times[j] - times[i] >= gap * cooldown
  {
    SpacedPairs(times, cooldown, i, j);
    CooldownsMultiply(steps, gap, cooldown);
  }

  ghost predicate AtMostOneWindow(kept: seq<real>, s: Settings) {
    kept != [] ==> (|kept| - 1) as real * s.cooldown <= s.tuning.window
  }

  /** Hence the deque never holds more than one window's worth of cooldowns. */
  lemma DequeIsBounded(builtAt: real, s: Settings, calls: seq<ObserverCall>, lag: real)
    requires Sane(s) && Timely(builtAt, calls, lag)
    ensures AtMostOneWindow(Run(Initial(builtAt), s, calls).0.governor.emissions, s)
  {
    RunsTrack(builtAt, s, calls, lag);
    var (o, log) := Run(Initial(builtAt), s, calls);
    TrackedIsShort(o, s, log.times, Horizon(builtAt, calls));
  }

  lemma TrackedIsShort(o: Observer, s: Settings, times: seq<real>, horizon: real)
    requires Tracks(o, s, times, horizon)
    ensures AtMostOneWindow(o.governor.emissions, s)
  {
    var kept := o.governor.emissions;
    SuffixIsSpaced(times, |times| - |kept|, s.cooldown);
    SpacedIsShort(kept, s);
  }

  lemma {:induction false} SuffixIsSpaced(times: seq<real>, from: nat, cooldown: real)
    requires from <= |times| && Spaced(times, cooldown)
    ensures Spaced(times[from..], cooldown)
    decreases |times|
  {
    if from + 2 <= |times| {
      SuffixIsSpaced(times[..|times| - 1], from, cooldown);
      assert times[from..][..|times| - from - 1] == times[..|times| - 1][from..];
    }
  }

  lemma SpacedIsShort(kept: seq<real>, s: Settings)
    requires Spaced(kept, s.cooldown) && Narrow(kept, s.tuning.window)
    ensures AtMostOneWindow(kept, s)
  {
    if kept != [] {
      var n := |kept| - 1;
      SpacedPairs(kept, s.cooldown, 0, n);
      CooldownsMultiply(n, n as real, s.cooldown);
    }
  }

  /** The deque refines the full log: pruned at any moment not before the horizon, it is the suffix
      of all emissions that are no older than the window, and nothing else. */
  lemma DequeIsTheWindow(builtAt: real, s: Settings, calls: seq<ObserverCall>, lag: real, at: real)
    requires Sane(s) && Timely(builtAt, calls, lag) && Horizon(builtAt, calls) <= at
    ensures var (o, log) := Run(Initial(builtAt), s, calls);
            IsWindow(Pruned(o.governor.emissions, at - s.tuning.window), log.times, at - s.tuning.window)
  {
    var (o, log) := Run(Initial(builtAt), s, calls);
    RunsTrack(builtAt, s, calls, lag);
    TrackedIsWindow(o, s, log.times, Horizon(builtAt, calls), at);
  }

  lemma TrackedIsWindow(o: Observer, s: Settings, times: seq<real>, horizon: real, at: real)
    requires Sane(s) && Tracks(o, s, times, horizon) && horizon <= at
    ensures IsWindow(Pruned(o.governor.emissions, at - s.tuning.window), times, at - s.tuning.window)
  {
    SpacedIsSorted(times, s.cooldown);
    PrunedIsWindow(o.governor.emissions, times, s.tuning.window, horizon, at);
  }

  /** `kept` is the suffix of the times that are at or after the cutoff. */
  ghost predicate IsWindow(kept: seq<real>, times: seq<real>, cutoff: real) {
    && |kept| <= |times|
    && kept == times[|times| - |kept|..]
    && (forall i :: 0 <= i < |times| ==> (times[i] >= cutoff <==> i >= |times| - |kept|))
  }

  lemma PrunedIsWindow(kept: seq<real>, times: seq<real>, window: real, horizon: real, at: real)
    requires InOrder(kept, times, window, horizon) && Sorted(times) && horizon <= at
    ensures IsWindow(Pruned(kept, at - window), times, at - window)
  {
    GateSeesTheWindow(kept, times, window, horizon, at);
  }

  // ---- The caps ----

  /** No unforced emission has `hardCap` others in the (lag-shortened) window before it. */
  ghost predicate Capped(s: Settings, log: Log, lag: real) {
    && |log.forced| == |log.times|
    && forall i, j :: 0 <= i <= j < |log.times| && !log.forced[j]
                      && log.times[j] - log.times[i] <= s.tuning.window - lag
         ==> j - i + 1 <= s.tuning.hardCap
  }

  lemma EmissionKeepsCap(s: Settings, log: Log, kept: seq<real>, a: Attempt, lag: real)
    requires Capped(s, log, lag)
    requires !a.force ==> |kept| < s.tuning.hardCap && a.prunedAt <= a.now + lag
    requires !a.force ==> SuffixFrom(kept, log.times, a.prunedAt - s.tuning.window)
    ensures Capped(s, Emit(log, a), lag)
  {
    var log', n := Emit(log, a), |log.times|;
    forall i, j | 0 <= i <= j < |log'.times| && !log'.forced[j]
                  && log'.times[j] - log'.times[i] <= s.tuning.window - lag
      ensures j - i + 1 <= s.tuning.hardCap
    {
      if j == n && i < n {
        assert log'.times[i] == log.times[i] && log'.times[j] == a.now;
        assert log.times[i] >= a.prunedAt - s.tuning.window;
      }
    }
  }

  lemma GrantKeepsCap(o: Observer, s: Settings, log: Log, horizon: real, a: Attempt, lag: real)
    requires Sane(s) && Tracks(o, s, log.times, horizon) && Capped(s, log, lag) && ReserveSlot(o, s, a).1
    requires horizon <= a.prunedAt && (!a.force ==> a.prunedAt <= a.now + lag)
    ensures Capped(s, Emit(log, a), lag)
  {
    SpacedIsSorted(log.times, s.cooldown);
    GateSeesTheWindow(o.governor.emissions, log.times, s.tuning.window, horizon, a.prunedAt);
    ReserveSlotEffect(o, s, a);
    EmissionKeepsCap(s, log, Kept(o, s, a), a, lag);
  }

  lemma {:induction false} RunsAreCapped(builtAt: real, s: Settings, calls: seq<ObserverCall>, lag: real)
    requires Sane(s) && Timely(builtAt, calls, lag)
    ensures Capped(s, Run(Initial(builtAt), s, calls).1, lag)
  {
    if calls != [] {
      var before, last := calls[..|calls| - 1], calls[|calls| - 1];
      RunsAreCapped(builtAt, s, before, lag);
      var (o, log) := Run(Initial(builtAt), s, before);
      if last.Reserve? && ReserveSlot(o, s, last.attempt).1 {
        RunsTrack(builtAt, s, before, lag);
        GrantKeepsCap(o, s, log, Horizon(builtAt, before), last.attempt, lag);
      }
    }
  }

  ghost function Within(log: Log, lo: real, hi: real): set<int> {
    set i | 0 <= i < |log.times| && lo <= log.times[i] <= hi
  }

  ghost predicate Unforced(calls: seq<ObserverCall>) {
    calls == [] ||
    (var last := calls[|calls| - 1];
     Unforced(calls[..|calls| - 1]) && (last.Reserve? ==> !last.attempt.force))
  }

  lemma {:induction false} NothingForced(o: Observer, s: Settings, calls: seq<ObserverCall>)
    requires Unforced(calls)
    ensures true !in Run(o, s, calls).1.forced
  {
    if calls != [] {
      NothingForced(o, s, calls[..|calls| - 1]);
    }
  }

  /** Every closed interval of length `window - lag`, wherever it starts, holds at most `hardCap`
      emissions when none was forced; with one clock reading per call the lag is 0. */
  lemma HardCapHoldsEverywhere(builtAt: real, s: Settings, calls: seq<ObserverCall>, lag: real, start: real)
    requires Sane(s) && Timely(builtAt, calls, lag) && Unforced(calls)
    ensures |Within(Run(Initial(builtAt), s, calls).1, start, start + s.tuning.window - lag)| <= s.tuning.hardCap
  {
    var log := Run(Initial(builtAt), s, calls).1;
    RunsAreCapped(builtAt, s, calls, lag);
    NothingForced(Initial(builtAt), s, calls);
    CapBoundsIntervals(s, log, lag, start);
  }

  lemma CapBoundsIntervals(s: Settings, log: Log, lag: real, start: real)
    requires Capped(s, log, lag) && true !in log.forced
    ensures |Within(log, start, start + s.tuning.window - lag)| <= s.tuning.hardCap
  {
    var inside := Within(log, start, start + s.tuning.window - lag);
    if inside != {} {
      var last := Greatest(inside);
      forall i | i in inside ensures last - s.tuning.hardCap + 1 <= i <= last {
        assert !log.forced[last];
      }
      SubsetSize(inside, Range(last - s.tuning.hardCap + 1, last + 1));
    }
  }

  /** Forced emissions may fill the window, but then no unforced one joins them. */
  lemma FullWindowRefuses(builtAt: real, s: Settings, calls: seq<ObserverCall>, lag: real, a: Attempt)
    requires Sane(s) && Timely(builtAt, calls, lag) && Horizon(builtAt, calls) <= a.prunedAt && !a.force
    requires var times := Run(Initial(builtAt), s, calls).1.times;
             |set i | 0 <= i < |times| && times[i] >= a.prunedAt - s.tuning.window| >= s.tuning.hardCap
    ensures !ReserveSlot(Run(Initial(builtAt), s, calls).0, s, a).1
  {
    var (o, log) := Run(Initial(builtAt), s, calls);
    RunsTrack(builtAt, s, calls, lag);
    RecentAreKept(o.governor.emissions, log.times, s, Horizon(builtAt, calls), a.prunedAt);
    ReserveSlotEffect(o, s, a);
  }

  lemma RecentAreKept(emissions: seq<real>, times: seq<real>, s: Settings, horizon: real, at: real)
    requires InOrder(emissions, times, s.tuning.window, horizon) && horizon <= at
    requires Spaced(times, s.cooldown) && s.cooldown >= 0.0
    ensures |set i | 0 <= i < |times| && times[i] >= at - s.tuning.window|
            <= |Pruned(emissions, at - s.tuning.window)|
  {
    SpacedIsSorted(times, s.cooldown);
    GateSeesTheWindow(emissions, times, s.tuning.window, horizon, at);
    var kept := Pruned(emissions, at - s.tuning.window);
    var recent := set i | 0 <= i < |times| && times[i] >= at - s.tuning.window;
    SubsetSize(recent, Range(|times| - |kept|, |times|));
  }

  // ---- Energy ----

  /** One cooldown is enough to recover what one emission drains, and a drain never reaches the floor. */
  ghost predicate Recovers(s: Settings) {
    && s.cooldown >= 0.0
    && s.tuning.drain >= 0.0 && s.tuning.recovery >= 0.0
    && s.cooldown * s.tuning.recovery >= s.tuning.drain
    && s.tuning.floor <= 1.0 - s.tuning.drain
  }

  lemma DefaultsRecover()
    ensures Recovers(DEFAULT_SETTINGS) && Sane(DEFAULT_SETTINGS)
  {
  }

  ghost predicate TwoLevels(o: Observer, s: Settings) {
    || o.governor.energy == 1.0
    || (o.governor.energy == 1.0 - s.tuning.drain && o.lastEmitAt == o.governor.updatedAt)
  }

  /** Stored energy only ever takes the values 1 and 1 - drain, whatever the clock readings are. */
  lemma {:induction false} EnergyHasTwoLevels(builtAt: real, s: Settings, calls: seq<ObserverCall>)
    requires Recovers(s)
    ensures TwoLevels(Run(Initial(builtAt), s, calls).0, s)
  {
    if calls != [] {
      EnergyHasTwoLevels(builtAt, s, calls[..|calls| - 1]);
      var last := calls[|calls| - 1];
      if last.Reserve? {
        ReservationKeepsLevels(Run(Initial(builtAt), s, calls[..|calls| - 1]).0, s, last.attempt);
      }
    }
  }

  lemma ReservationKeepsLevels(o: Observer, s: Settings, a: Attempt)
    requires Recovers(s) && TwoLevels(o, s)
    ensures TwoLevels(ReserveSlot(o, s, a).0, s)
  {
    hide Pruned;
    hide DensityFactor;
    hide EnergyAt;
    if ReserveSlot(o, s, a).1 {
      RecoveredIsFull(o, s, a.now);
      SameEnergy(o.governor, o.governor.(emissions := Kept(o, s, a)), s.tuning, a.now);
    }
  }

  lemma RecoveredIsFull(o: Observer, s: Settings, now: real)
    requires Recovers(s) && TwoLevels(o, s) && now - o.lastEmitAt >= s.cooldown
    ensures EnergyAt(o.governor, s.tuning, now) == 1.0
  {
    var t := s.tuning;
    var elapsed := Max(0.0, now - o.governor.updatedAt);
    if o.governor.energy == 1.0 - t.drain && t.drain > 0.0 {
      assert elapsed >= s.cooldown;
      ProductAtLeast(t.recovery, elapsed, s.cooldown);
    } else {
      assert elapsed * t.recovery >= 0.0;
    }
  }

  /** So the gate is never weaker than the density factor times one drain below full, it opens
      exactly when the window is not full, and the energy floor plays no part. */
  ghost predicate NeverStarved(g: Governor, s: Settings, prunedAt: real, energyAt: real) {
    var (g', gated) := Gate(g, s.tuning, s.probability, prunedAt, energyAt);
    && EnergyAt(g, s.tuning, energyAt) >= 1.0 - s.tuning.drain
    && gated >= s.probability * DensityFactor(|g'.emissions|, s.tuning) * (1.0 - s.tuning.drain)
    && (s.probability > 0.0 && s.tuning.drain < 1.0 ==> (gated > 0.0 <==> |g'.emissions| < s.tuning.hardCap))
  }

  lemma GateIsNeverStarved(builtAt: real, s: Settings, calls: seq<ObserverCall>, prunedAt: real, energyAt: real)
    requires Recovers(s) && s.probability >= 0.0
    ensures NeverStarved(Run(Initial(builtAt), s, calls).0.governor, s, prunedAt, energyAt)
  {
    EnergyHasTwoLevels(builtAt, s, calls);
    TwoLevelsFeedTheGate(Run(Initial(builtAt), s, calls).0, s, prunedAt, energyAt);
  }

  lemma TwoLevelsFeedTheGate(o: Observer, s: Settings, prunedAt: real, energyAt: real)
    requires Recovers(s) && s.probability >= 0.0 && TwoLevels(o, s)
    ensures NeverStarved(o.governor, s, prunedAt, energyAt)
  {
    EnergyStaysUp(o, s, energyAt);
    GateAtLeast(o.governor, s, prunedAt, energyAt, 1.0 - s.tuning.drain);
  }

  lemma GateAtLeast(g: Governor, s: Settings, prunedAt: real, energyAt: real, least: real)
    requires EnergyAt(g, s.tuning, energyAt) >= least && s.probability >= 0.0
    ensures var (g', gated) := Gate(g, s.tuning, s.probability, prunedAt, energyAt);
            && gated >= s.probability * DensityFactor(|g'.emissions|, s.tuning) * least
            && (s.probability > 0.0 && least > 0.0 ==> (gated > 0.0 <==> |g'.emissions| < s.tuning.hardCap))
  {
    var g1 := g.(emissions := Pruned(g.emissions, prunedAt - s.tuning.window));
    var energy := EnergyAt(g1, s.tuning, energyAt);
    SameEnergy(g1, g, s.tuning, energyAt);
    DensityFactorRange(|g1.emissions|, s.tuning);
    ScaledGate(s.probability, DensityFactor(|g1.emissions|, s.tuning), energy, least);
  }

  lemma SameEnergy(g: Governor, g': Governor, tuning: Tuning, at: real)
    requires g.energy == g'.energy && g.updatedAt == g'.updatedAt
    ensures EnergyAt(g, tuning, at) == EnergyAt(g', tuning, at)
  {
  }

  lemma ScaledGate(base: real, density: real, energy: real, least: real)
    requires base >= 0.0 && 0.0 <= density && energy >= least
    ensures base * density * energy >= base * density * least
    ensures base > 0.0 && density > 0.0 && least > 0.0 ==> base * density * energy > 0.0
  {
    var scale := PositiveProduct(base, density);
    ProductAtLeast(scale, energy, least);
    if base > 0.0 && density > 0.0 && least > 0.0 {
      var gated := PositiveProduct(scale, energy);
    }
  }

  lemma PositiveProduct(x: real, y: real) returns (product: real)
    requires x >= 0.0 && y >= 0.0
    ensures product == x * y && product >= 0.0 && (x > 0.0 && y > 0.0 ==> product > 0.0)
  {
    product := x * y;
  }

  lemma EnergyStaysUp(o: Observer, s: Settings, at: real)
    requires Recovers(s) && TwoLevels(o, s)
    ensures EnergyAt(o.governor, s.tuning, at) >= 1.0 - s.tuning.drain
  {
    assert Max(0.0, at - o.governor.updatedAt) * s.tuning.recovery >= 0.0;
  }

  lemma ProductAtLeast(a: real, x: real, y: real)
    requires a >= 0.0 && x >= y
    ensures a * x >= a * y
  {
    assert a * (x - y) >= 0.0;
  }
}
