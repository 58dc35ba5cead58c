/** How long an interval of time the emission cap covers: exactly up to the window less the reading lag. */
module CapLimits {
  import opened DensityGovernors
  import opened FiniteSets
  import opened SlotReservation

  /** Settings under which an unforced remark is possible as long as the window is not full: the energy
      has a floor above nothing, or recovers from one remark to the next. */
  ghost predicate Lively(s: Settings) {
    && Sane(s) && s.probability > 0.0 && s.tuning.hardCap >= 1
    && (s.tuning.floor > 0.0 || (Recovers(s) && s.tuning.drain < 1.0))
  }

  /** Reachable observers under such settings never run out of energy. */
  ghost predicate Charged(o: Observer, s: Settings) {
    s.tuning.floor > 0.0 || TwoLevels(o, s)
  }

  lemma RunsAreCharged(builtAt: real, s: Settings, calls: seq<ObserverCall>)
    requires Lively(s)
    ensures Charged(Run(Initial(builtAt), s, calls).0, s)
  {
    if s.tuning.floor <= 0.0 {
      EnergyHasTwoLevels(builtAt, s, calls);
    }
  }

  lemma ChargedOpensTheGate(o: Observer, s: Settings, prunedAt: real, energyAt: real)
    requires Lively(s) && Charged(o, s)
    ensures var (g, gated) := Gate(o.governor, s.tuning, s.probability, prunedAt, energyAt);
            gated > 0.0 <==> |g.emissions| < s.tuning.hardCap
  {
    if s.tuning.floor > 0.0 {
      GateAtLeast(o.governor, s, prunedAt, energyAt, s.tuning.floor);
    } else {
      TwoLevelsFeedTheGate(o, s, prunedAt, energyAt);
    }
  }

  ghost predicate AtMost(log: Log, start: real, length: real, count: nat) {
    |Within(log, start, start + length)| <= count
  }

  /** In every run without forced attempts, whatever its clock readings, no closed interval of this
      length holds more than `hardCap` emissions. */
  ghost predicate CapCovers(builtAt: real, s: Settings, lag: real, length: real) {
    forall calls: seq<ObserverCall>, start: real :: Timely(builtAt, calls, lag) && Unforced(calls)
      ==> AtMost(Run(Initial(builtAt), s, calls).1, start, length, s.tuning.hardCap)
  }

  // ---- A run that fills an interval ----

  /** `n` unforced attempts, one cooldown apart, with nobody in between and the lowest roll. */
  ghost function Early(from: real, cooldown: real, n: nat): seq<ObserverCall> {
    if n == 0 then [] else Early(from, cooldown, n - 1) + [Reserve(EarlyAttempt(from, cooldown, n - 1))]
  }

  ghost function EarlyAttempt(from: real, cooldown: real, i: nat): Attempt {
    var at := EarlyTime(from, cooldown, i);
    Attempt(false, at, at, at, 0.0)
  }

  /** The first attempts, then one more `length` after the first, whose gate reads the clock late. */
  ghost function Crowd(from: real, s: Settings, length: real, lag: real): seq<ObserverCall> {
    Early(from, s.cooldown, s.tuning.hardCap)
    + [Reserve(Attempt(false, from + length, from + length + lag, from + length + lag, 0.0))]
  }

  lemma OpenGateGrants(o: Observer, s: Settings, a: Attempt)
    requires Lively(s) && Charged(o, s) && !o.muted && !a.force && a.roll == 0.0
    requires a.now - o.lastEmitAt >= s.cooldown
    requires |Pruned(o.governor.emissions, a.prunedAt - s.tuning.window)| < s.tuning.hardCap
    ensures ReserveSlot(o, s, a).1
    ensures !ReserveSlot(o, s, a).0.muted && ReserveSlot(o, s, a).0.lastEmitAt == a.now
  {
    ChargedOpensTheGate(o, s, a.prunedAt, a.energyAt);
    ReserveSlotEffect(o, s, a);
  }

  /** One more call at the end of a run. */
  lemma OneMoreCall(o: Observer, s: Settings, calls: seq<ObserverCall>, a: Attempt)
    requires ReserveSlot(Run(o, s, calls).0, s, a).1
    ensures Run(o, s, calls + [Reserve(a)])
      == (ReserveSlot(Run(o, s, calls).0, s, a).0, Emit(Run(o, s, calls).1, a))
  {
    assert (calls + [Reserve(a)])[..|calls|] == calls;
  }

  lemma OneMoreIsTimely(builtAt: real, calls: seq<ObserverCall>, lag: real, a: Attempt)
    requires Timely(builtAt, calls, lag) && Unforced(calls) && !a.force
    requires Horizon(builtAt, calls) <= a.prunedAt <= a.energyAt && a.now <= a.prunedAt <= a.now + lag
    ensures Timely(builtAt, calls + [Reserve(a)], lag) && Unforced(calls + [Reserve(a)])
    ensures Horizon(builtAt, calls + [Reserve(a)]) == a.prunedAt
  {
    assert (calls + [Reserve(a)])[..|calls|] == calls;
  }

  /** A run in which every attempt was granted: `n` emissions from `first` to `latest`, the last
      reading under the lock at `seen`. */
  ghost predicate AllGranted(builtAt: real, s: Settings, calls: seq<ObserverCall>, lag: real,
                             n: nat, first: real, latest: real, seen: real)
  {
    var (o, log) := Run(Initial(builtAt), s, calls);
    && Timely(builtAt, calls, lag) && Unforced(calls) && Horizon(builtAt, calls) == seen
    && |log.times| == n && !o.muted && o.lastEmitAt == latest
    && (n > 0 ==> log.times[0] == first && log.times[n - 1] == latest)
  }

  lemma NothingGranted(builtAt: real, s: Settings, lag: real, first: real)
    ensures AllGranted(builtAt, s, [], lag, 0, first, 0.0, builtAt)
  {
  }

  lemma OneMoreGranted(builtAt: real, s: Settings, calls: seq<ObserverCall>, lag: real,
                       n: nat, first: real, latest: real, seen: real, a: Attempt)
    requires Lively(s) && AllGranted(builtAt, s, calls, lag, n, first, latest, seen)
    requires !a.force && a.roll == 0.0 && seen <= a.prunedAt <= a.energyAt && a.now <= a.prunedAt <= a.now + lag
    requires a.now - latest >= s.cooldown && (n == 0 ==> a.now == first)
    requires var kept := Pruned(Run(Initial(builtAt), s, calls).0.governor.emissions, a.prunedAt - s.tuning.window);
             |kept| < s.tuning.hardCap
    ensures AllGranted(builtAt, s, calls + [Reserve(a)], lag, n + 1, first, a.now, a.prunedAt)
  {
    RunsAreCharged(builtAt, s, calls);
    OpenGateGrants(Run(Initial(builtAt), s, calls).0, s, a);
    OneMoreCall(Initial(builtAt), s, calls, a);
    OneMoreIsTimely(builtAt, calls, lag, a);
  }

  lemma FewAreKept(builtAt: real, s: Settings, calls: seq<ObserverCall>, lag: real, cutoff: real)
    requires Sane(s) && Timely(builtAt, calls, lag)
    ensures var (o, log) := Run(Initial(builtAt), s, calls); |Pruned(o.governor.emissions, cutoff)| <= |log.times|
  {
    RunsTrack(builtAt, s, calls, lag);
    PrunedIsSuffix(Run(Initial(builtAt), s, calls).0.governor.emissions, cutoff);
  }

  ghost function EarlyTime(from: real, cooldown: real, i: nat): real {
    from + Cooldowns(i, cooldown)
  }

  lemma OneCooldownLater(from: real, cooldown: real, n: nat)
    ensures EarlyTime(from, cooldown, n + 1) == EarlyTime(from, cooldown, n) + cooldown
    ensures EarlyTime(from, cooldown, 0) == from
  {
  }

  lemma {:induction false} EarlyAreGranted(builtAt: real, s: Settings, from: real, n: nat, lag: real)
    returns (latest: real, seen: real)
    requires Lively(s) && lag >= 0.0 && n <= s.tuning.hardCap && from >= builtAt && from >= s.cooldown
    ensures AllGranted(builtAt, s, Early(from, s.cooldown, n), lag, n, from, latest, seen)
    ensures n == 0 ==> latest == 0.0 && seen == builtAt
    ensures n > 0 ==> latest == seen == EarlyTime(from, s.cooldown, n - 1)
  {
    if n == 0 {
      NothingGranted(builtAt, s, lag, from);
      latest, seen := 0.0, builtAt;
    } else {
      var before, a := Early(from, s.cooldown, n - 1), EarlyAttempt(from, s.cooldown, n - 1);
      var earlier, looked := EarlyAreGranted(builtAt, s, from, n - 1, lag);
      OneCooldownLater(from, s.cooldown, if n > 1 then n - 2 else 0);
      FewAreKept(builtAt, s, before, lag, a.prunedAt - s.tuning.window);
      OneMoreGranted(builtAt, s, before, lag, n - 1, from, earlier, looked, a);
      latest, seen := a.now, a.now;
    }
  }

  lemma RoomForOneMore(from: real, cooldown: real, n: nat, length: real)
    requires n >= 1 && length >= Cooldowns(n, cooldown)
    ensures from + length - EarlyTime(from, cooldown, n - 1) >= cooldown
  {
    OneCooldownLater(from, cooldown, n - 1);
  }

  /** A gate that looks once the first emission is too old sees fewer than the cap. */
  lemma FirstIsGone(builtAt: real, s: Settings, calls: seq<ObserverCall>, lag: real, at: real)
    requires Sane(s) && Timely(builtAt, calls, lag) && Horizon(builtAt, calls) <= at
    requires var times := Run(Initial(builtAt), s, calls).1.times; times != [] && times[0] < at - s.tuning.window
    ensures var (o, log) := Run(Initial(builtAt), s, calls);
            |Pruned(o.governor.emissions, at - s.tuning.window)| < |log.times|
  {
    DequeIsTheWindow(builtAt, s, calls, lag, at);
  }

  /** The late gate no longer sees the first emission, so the last attempt is granted as well. */
  lemma CrowdIsGranted(builtAt: real, s: Settings, from: real, length: real, lag: real)
    requires Lively(s) && lag >= 0.0 && from >= builtAt && from >= s.cooldown
    requires length > s.tuning.window - lag && length >= Cooldowns(s.tuning.hardCap, s.cooldown)
    ensures AllGranted(builtAt, s, Crowd(from, s, length, lag), lag,
                       s.tuning.hardCap + 1, from, from + length, from + length + lag)
  {
    var n := s.tuning.hardCap;
    var latest, seen := EarlyAreGranted(builtAt, s, from, n, lag);
    RoomForOneMore(from, s.cooldown, n, length);
    LateIsGranted(builtAt, s, Early(from, s.cooldown, n), from, latest, seen, length, lag);
  }

  lemma LateIsGranted(builtAt: real, s: Settings, calls: seq<ObserverCall>, from: real, latest: real, seen: real,
                      length: real, lag: real)
    requires Lively(s) && lag >= 0.0 && AllGranted(builtAt, s, calls, lag, s.tuning.hardCap, from, latest, seen)
    requires latest == seen && from + length - latest >= s.cooldown && length > s.tuning.window - lag
    ensures var late := Attempt(false, from + length, from + length + lag, from + length + lag, 0.0);
            AllGranted(builtAt, s, calls + [Reserve(late)], lag,
                       s.tuning.hardCap + 1, from, from + length, from + length + lag)
  {
    var a := Attempt(false, from + length, from + length + lag, from + length + lag, 0.0);
    FirstIsGone(builtAt, s, calls, lag, a.prunedAt);
    OneMoreGranted(builtAt, s, calls, lag, s.tuning.hardCap, from, latest, seen, a);
  }

  lemma CrowdExceedsTheCap(builtAt: real, s: Settings, from: real, length: real, lag: real)
    requires Lively(s) && lag >= 0.0 && from >= builtAt && from >= s.cooldown
    requires length > s.tuning.window - lag && length >= Cooldowns(s.tuning.hardCap, s.cooldown)
    ensures var calls := Crowd(from, s, length, lag);
            && Timely(builtAt, calls, lag) && Unforced(calls)
            && !AtMost(Run(Initial(builtAt), s, calls).1, from, length, s.tuning.hardCap)
  {
    var calls := Crowd(from, s, length, lag);
    CrowdIsGranted(builtAt, s, from, length, lag);
    var log := Run(Initial(builtAt), s, calls).1;
    RunsTrack(builtAt, s, calls, lag);
    SpacedIsSorted(log.times, s.cooldown);
    SubsetSize(Range(0, s.tuning.hardCap + 1), Within(log, from, from + length));
  }

  // ---- Intervals that are covered ----

  /** Emissions less than `cap` cooldowns apart are less than `cap` positions apart. */
  lemma CloseTogether(times: seq<real>, cooldown: real, cap: nat, i: nat, last: nat, length: real)
    requires CooldownsApart(times, cooldown) && cooldown >= 0.0 && i <= last < |times|
    requires times[last] - times[i] <= length < cap as real * cooldown
    ensures last - i < cap
  {
    var gap := (last - i) as real;
    assert times[last] - times[i] >= gap * cooldown;
    if last - i >= cap {
      ProductAtLeast(cooldown, gap, cap as real);
    }
  }

  lemma CloseInside(log: Log, s: Settings, start: real, length: real, i: int, last: int)
    requires CooldownsApart(log.times, s.cooldown) && s.cooldown >= 0.0
    requires i in Within(log, start, start + length) && last in Within(log, start, start + length) && i <= last
    requires length < s.tuning.hardCap as real * s.cooldown
    ensures last - i < s.tuning.hardCap
  {
    CloseTogether(log.times, s.cooldown, s.tuning.hardCap, i, last, length);
  }

  /** Short intervals have no room for more, whatever the window. */
  lemma CooldownCovers(builtAt: real, s: Settings, calls: seq<ObserverCall>, lag: real, start: real, length: real)
    requires Sane(s) && Timely(builtAt, calls, lag) && length < s.tuning.hardCap as real * s.cooldown
    ensures AtMost(Run(Initial(builtAt), s, calls).1, start, length, s.tuning.hardCap)
  {
    EmissionsAreCooled(builtAt, s, calls, lag);
    SpacingCovers(Run(Initial(builtAt), s, calls).1, s, start, length);
  }

  lemma SpacingCovers(log: Log, s: Settings, start: real, length: real)
    requires CooldownsApart(log.times, s.cooldown) && s.cooldown >= 0.0
    requires length < s.tuning.hardCap as real * s.cooldown
    ensures AtMost(log, start, length, s.tuning.hardCap)
  {
    var inside := Within(log, start, start + length);
    if inside != {} {
      var last := Greatest(inside);
      forall i | i in inside ensures last - s.tuning.hardCap + 1 <= i <= last {
        CloseInside(log, s, start, length, i, last);
      }
      SubsetSize(inside, Range(last - s.tuning.hardCap + 1, last + 1));
    }
  }

  lemma WindowCovers(builtAt: real, s: Settings, calls: seq<ObserverCall>, lag: real, start: real, length: real)
    requires Sane(s) && Timely(builtAt, calls, lag) && Unforced(calls) && length <= s.tuning.window - lag
    ensures AtMost(Run(Initial(builtAt), s, calls).1, start, length, s.tuning.hardCap)
  {
    var log := Run(Initial(builtAt), s, calls).1;
    HardCapHoldsEverywhere(builtAt, s, calls, lag, start);
    SubsetSize(Within(log, start, start + length), Within(log, start, start + s.tuning.window - lag));
  }

  // ---- The exact length ----

  /** Runs in which a call's clock readings are at most `lag` apart respect the cap in every interval
      of this length exactly when the length is at most the window less the lag, or too short for one
      cooldown per counted emission. */
  lemma CapCoversExactly(builtAt: real, s: Settings, lag: real, length: real)
    requires Lively(s) && lag >= 0.0
    ensures CapCovers(builtAt, s, lag, length)
            <==> length <= s.tuning.window - lag || length < s.tuning.hardCap as real * s.cooldown
  {
    if length <= s.tuning.window - lag || length < s.tuning.hardCap as real * s.cooldown {
      forall calls: seq<ObserverCall>, start: real | Timely(builtAt, calls, lag) && Unforced(calls)
        ensures AtMost(Run(Initial(builtAt), s, calls).1, start, length, s.tuning.hardCap)
      {
        if length <= s.tuning.window - lag {
          WindowCovers(builtAt, s, calls, lag, start, length);
        } else {
          CooldownCovers(builtAt, s, calls, lag, start, length);
        }
      }
    } else {
      CooldownsMultiply(s.tuning.hardCap, s.tuning.hardCap as real, s.cooldown);
      var from := if builtAt < s.cooldown then s.cooldown else builtAt;
      CrowdExceedsTheCap(builtAt, s, from, length, lag);
    }
  }

  /** As shipped, with nine remarks to three minutes and eight seconds of cooldown: the cap covers
      three minutes exactly if no call's clock readings are ever apart. */
  lemma ShippedCapCovers(builtAt: real, lag: real, length: real)
    requires lag >= 0.0
    ensures CapCovers(builtAt, DEFAULT_SETTINGS, lag, length) <==> length <= 180.0 - lag || length < 72.0
    ensures CapCovers(builtAt, DEFAULT_SETTINGS, lag, 180.0) <==> lag == 0.0
  {
    DefaultsRecover();
    CapCoversExactly(builtAt, DEFAULT_SETTINGS, lag, length);
    CapCoversExactly(builtAt, DEFAULT_SETTINGS, lag, 180.0);
  }
}
