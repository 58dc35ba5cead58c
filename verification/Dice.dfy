/** What the dice decide: an unforced remark needs a low enough roll, and such a roll is enough. */
module Dice {
  import opened DensityGovernors
  import opened Reals
  import opened SlotReservation

  /** How many emissions the gate sees. */
  function Seen(o: Observer, s: Settings, a: Attempt): nat {
    |Pruned(o.governor.emissions, a.prunedAt - s.tuning.window)|
  }

  ghost predicate FloorIsAFraction(s: Settings) { 0.0 <= s.tuning.floor <= 1.0 }

  /** An unforced remark needs a roll at or below its probability, and below it the fuller the window is. */
  lemma GrantNeedsALowRoll(o: Observer, s: Settings, a: Attempt)
    requires !a.force && ReserveSlot(o, s, a).1 && s.probability >= 0.0 && FloorIsAFraction(s)
    ensures a.roll <= s.probability * DensityFactor(Seen(o, s, a), s.tuning) <= s.probability
    ensures Seen(o, s, a) < s.tuning.hardCap
  {
    var g := o.governor.(emissions := Pruned(o.governor.emissions, a.prunedAt - s.tuning.window));
    DensityFactorRange(Seen(o, s, a), s.tuning);
    var scale := Shrunk(s.probability, DensityFactor(Seen(o, s, a), s.tuning));
    var gated := Shrunk(scale, EnergyAt(g, s.tuning, a.energyAt));
  }

  lemma Shrunk(x: real, part: real) returns (product: real)
    requires x >= 0.0 && 0.0 <= part <= 1.0
    ensures product == x * part && 0.0 <= product <= x
  {
    product := x * part;
    assert x * (1.0 - part) >= 0.0;
  }

  /** With a full store of energy that is all there is to it: an unforced attempt is granted exactly when it is
      not muted, is cooled, finds room in the window, and rolls no higher than its probability. */
  lemma FullEnergyGrantsExactly(o: Observer, s: Settings, a: Attempt)
    requires !a.force && s.probability > 0.0 && EnergyAt(o.governor, s.tuning, a.energyAt) == 1.0
    ensures ReserveSlot(o, s, a).1
            <==> && !o.muted && a.now - o.lastEmitAt >= s.cooldown && Seen(o, s, a) < s.tuning.hardCap
                 && a.roll <= s.probability * DensityFactor(Seen(o, s, a), s.tuning)
  {
    var g := o.governor.(emissions := Pruned(o.governor.emissions, a.prunedAt - s.tuning.window));
    SameEnergy(o.governor, g, s.tuning, a.energyAt);
    DensityFactorRange(Seen(o, s, a), s.tuning);
    var scale := PositiveProduct(s.probability, DensityFactor(Seen(o, s, a), s.tuning));
  }

  /** One drain below full is still enough for most rolls: in every reachable state a cooled, unmuted
      attempt with room in the window is granted on a roll lower by that drain. */
  lemma LowRollIsGranted(builtAt: real, s: Settings, calls: seq<ObserverCall>, a: Attempt)
    requires Recovers(s) && s.probability > 0.0 && s.tuning.drain < 1.0
    requires var o := Run(Initial(builtAt), s, calls).0;
             && !o.muted && a.now - o.lastEmitAt >= s.cooldown && Seen(o, s, a) < s.tuning.hardCap
             && a.roll <= s.probability * DensityFactor(Seen(o, s, a), s.tuning) * (1.0 - s.tuning.drain)
    ensures ReserveSlot(Run(Initial(builtAt), s, calls).0, s, a).1
  {
    GateIsNeverStarved(builtAt, s, calls, a.prunedAt, a.energyAt);
  }

  /** A forced attempt needs neither luck nor room: only not to be muted, and the cooldown. */
  lemma ForcedNeedsOnlyCooldown(o: Observer, s: Settings, a: Attempt)
    requires a.force
    ensures ReserveSlot(o, s, a).1 <==> !o.muted && a.now - o.lastEmitAt >= s.cooldown
  {
  }

  /** A grant leaves the energy exactly one drain below full, whatever it was before. */
  lemma GrantDrains(builtAt: real, s: Settings, calls: seq<ObserverCall>, a: Attempt)
    requires Recovers(s) && ReserveSlot(Run(Initial(builtAt), s, calls).0, s, a).1
    ensures var o := ReserveSlot(Run(Initial(builtAt), s, calls).0, s, a).0;
            o.governor.energy == 1.0 - s.tuning.drain && o.governor.updatedAt == a.now && o.lastEmitAt == a.now
  {
    var o := Run(Initial(builtAt), s, calls).0;
    EnergyHasTwoLevels(builtAt, s, calls);
    ReserveSlotEffect(o, s, a);
    DrainsFully(o, s, a);
  }

  lemma DrainsFully(o: Observer, s: Settings, a: Attempt)
    requires Recovers(s) && TwoLevels(o, s) && ReserveSlot(o, s, a).1 && a.now - o.lastEmitAt >= s.cooldown
    ensures var o' := ReserveSlot(o, s, a).0;
            o'.governor.energy == 1.0 - s.tuning.drain && o'.governor.updatedAt == a.now && o'.lastEmitAt == a.now
  {
    hide EnergyAt;
    RecoveredIsFull(o, s, a.now);
    SameEnergy(o.governor, o.governor.(emissions := Kept(o, s, a)), s.tuning, a.now);
  }

  /** Between remarks the energy recovers in proportion to the time, up to full. */
  lemma EnergyRecovers(g: Governor, tuning: Tuning, at: real, gained: real)
    requires at >= g.updatedAt && gained == (at - g.updatedAt) * tuning.recovery && tuning.floor <= 1.0
    ensures g.energy + gained >= 1.0 ==> EnergyAt(g, tuning, at) == 1.0
    ensures tuning.floor <= g.energy + gained <= 1.0 ==> EnergyAt(g, tuning, at) == g.energy + gained
  {
  }

  // ---- As shipped ----

  /** As shipped an unforced remark needs a roll of at most one in five, and less from the fifth remark of the last
      three minutes on. */
  lemma ShippedDice(o: Observer, a: Attempt)
    requires !a.force && ReserveSlot(o, DEFAULT_SETTINGS, a).1
    ensures var n := |Pruned(o.governor.emissions, a.prunedAt - 180.0)|;
            n < 9 && a.roll <= (if n < 5 then 0.2 else [0.12, 0.095, 0.07, 0.045][n - 5])
  {
    GrantNeedsALowRoll(o, DEFAULT_SETTINGS, a);
    ShippedDensity(Seen(o, DEFAULT_SETTINGS, a));
  }

  lemma ShippedDensity(n: nat)
    ensures n < 5 ==> DensityFactor(n, DEFAULT_TUNING) == 1.0
    ensures 5 <= n < 9 ==> DensityFactor(n, DEFAULT_TUNING) == [0.6, 0.475, 0.35, 0.225][n - 5]
  {
  }

  /** As shipped a remark costs 0.12 of a full energy of one, which is back within six seconds; without
      remarks even an empty store counts for one twentieth. */
  lemma ShippedEnergy(builtAt: real, calls: seq<ObserverCall>, a: Attempt, later: real, empty: Governor)
    requires ReserveSlot(Run(Initial(builtAt), DEFAULT_SETTINGS, calls).0, DEFAULT_SETTINGS, a).1
    requires later >= a.now && empty.energy == 0.0
    ensures var g := ReserveSlot(Run(Initial(builtAt), DEFAULT_SETTINGS, calls).0, DEFAULT_SETTINGS, a).0.governor;
            EnergyAt(g, DEFAULT_TUNING, later)
            == if later - a.now >= 6.0 then 1.0 else 0.88 + 0.02 * (later - a.now)
    ensures EnergyAt(empty, DEFAULT_TUNING, empty.updatedAt) == 0.05
  {
    DefaultsRecover();
    GrantDrains(builtAt, DEFAULT_SETTINGS, calls, a);
  }

  /** While muted nothing is granted, forced or not; muting and unmuting change nothing else. */
  lemma MutingSilences(o: Observer, s: Settings, calls: seq<ObserverCall>, muted: bool, a: Attempt)
    ensures var (before, log) := Run(o, s, calls);
            var (after, log') := Run(o, s, calls + [SetMuted(muted)]);
            log' == log && after == before.(muted := muted) && (muted ==> !ReserveSlot(after, s, a).1)
  {
    assert (calls + [SetMuted(muted)])[..|calls|] == calls;
  }
}
