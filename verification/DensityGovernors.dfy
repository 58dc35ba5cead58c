/** The emission governor: a sliding window of emission times and a recovering energy budget. */
module DensityGovernors {
  import opened Reals

  datatype Tuning = Tuning(
    window: real,
    softCap: nat,
    hardCap: nat,
    drain: real,
    recovery: real,
    floor: real)

  const DEFAULT_TUNING := Tuning(180.0, 5, 9, 0.12, 0.02, 0.05)

  datatype Governor = Governor(emissions: seq<real>, energy: real, updatedAt: real)

  /** Popping from the left while the leftmost emission is older than the cutoff. */
  function Pruned(emissions: seq<real>, cutoff: real): seq<real> {
    if emissions != [] && emissions[0] < cutoff then Pruned(emissions[1..], cutoff) else emissions
  }

  function DensityFactor(count: nat, tuning: Tuning): real {
    if count >= tuning.hardCap then 0.0
    else if count < tuning.softCap then 1.0
    else
      var span := if tuning.hardCap - tuning.softCap > 1 then tuning.hardCap - tuning.softCap else 1;
      var decay := 1.0 - (count - tuning.softCap) as real / span as real;
      0.1 + 0.5 * decay
  }

  function EnergyAt(g: Governor, tuning: Tuning, now: real): real {
    var elapsed := Max(0.0, now - g.updatedAt);
    Max(tuning.floor, Min(1.0, g.energy + elapsed * tuning.recovery))
  }

  /** The gated probability; the pruning and the energy each read the clock. */
  function Gate(g: Governor, tuning: Tuning, base: real, prunedAt: real, energyAt: real): (Governor, real) {
    var g1 := g.(emissions := Pruned(g.emissions, prunedAt - tuning.window));
    var density := DensityFactor(|g1.emissions|, tuning);
    (g1, if density <= 0.0 then 0.0 else base * density * EnergyAt(g1, tuning, energyAt))
  }

  function RecordEmission(g: Governor, tuning: Tuning, at: real): Governor {
    Governor(
      Pruned(g.emissions + [at], at - tuning.window),
      Max(tuning.floor, EnergyAt(g, tuning, at) - tuning.drain),
      at)
  }

  class DensityGovernor {
    const tuning: Tuning
    var emissions: seq<real>
    var energy: real
    var updatedAt: real

    ghost function Value(): Governor
      reads this
    {
      Governor(emissions, energy, updatedAt)
    }

    constructor (tuning: Tuning, now: real)
      ensures this.tuning == tuning && Value() == Governor([], 1.0, now)
    {
      this.tuning := tuning;
      emissions, energy, updatedAt := [], 1.0, now;
    }

    method Prune(now: real)
      modifies this`emissions
      ensures emissions == Pruned(old(emissions), now - tuning.window)
    {
      var cutoff := now - tuning.window;
      while emissions != [] && emissions[0] < cutoff
        invariant Pruned(emissions, cutoff) == Pruned(old(emissions), cutoff)
        decreases |emissions|
      {
        emissions := emissions[1..];
      }
    }

    method CurrentEnergy(now: real) returns (current: real)
      ensures current == EnergyAt(Value(), tuning, now)
    {
      var elapsed := Max(0.0, now - updatedAt);
      var recovered := energy + elapsed * tuning.recovery;
      current := Max(tuning.floor, Min(1.0, recovered));
    }

    method GateProbability(base: real, prunedAt: real, energyAt: real) returns (gated: real)
      modifies this`emissions
      ensures Value() == Gate(old(Value()), tuning, base, prunedAt, energyAt).0
      ensures gated == Gate(old(Value()), tuning, base, prunedAt, energyAt).1
    {
      Prune(prunedAt);
      var density := DensityFactor(|emissions|, tuning);
      if density <= 0.0 {
        return 0.0;
      }
      var current := CurrentEnergy(energyAt);
      gated := base * density * current;
    }

    method Record(at: real)
      modifies this
      ensures Value() == RecordEmission(old(Value()), tuning, at)
    {
      emissions := emissions + [at];
      Prune(at);
      var current := CurrentEnergy(at);
      energy := Max(tuning.floor, current - tuning.drain);
      updatedAt := at;
    }
  }

  // ---- Facts about single operations ----

  /** Pruning drops exactly a prefix: everything dropped is too old, the first kept one is not. */
  lemma {:induction false} PrunedIsSuffix(emissions: seq<real>, cutoff: real)
    ensures var kept := Pruned(emissions, cutoff);
            && |kept| <= |emissions|
            && kept == emissions[|emissions| - |kept|..]
            && (forall i :: 0 <= i < |emissions| - |kept| ==> emissions[i] < cutoff)
            && (kept != [] ==> kept[0] >= cutoff)
  {
    if emissions != [] && emissions[0] < cutoff {
      PrunedIsSuffix(emissions[1..], cutoff);
      var kept := Pruned(emissions, cutoff);
      assert emissions[1..][|emissions| - 1 - |kept|..] == emissions[|emissions| - |kept|..];
      forall i | 0 <= i < |emissions| - |kept| ensures emissions[i] < cutoff {
        assert i > 0 ==> emissions[i] == emissions[1..][i - 1];
      }
    }
  }

  /** The density factor is zero exactly when the window is full, and otherwise above 1/10. */
  lemma DensityFactorRange(count: nat, tuning: Tuning)
    ensures count >= tuning.hardCap <==> DensityFactor(count, tuning) == 0.0
    ensures count < tuning.hardCap ==> 0.1 < DensityFactor(count, tuning) <= 1.0
  {
    if tuning.softCap <= count < tuning.hardCap {
      var over, span := (count - tuning.softCap) as real, (tuning.hardCap - tuning.softCap) as real;
      assert 0.0 <= over < span;
      assert over / span < 1.0 && over / span >= 0.0;
    }
  }

  /** More emissions in the window never make the next one likelier: the factor falls from 1 through 6/10
      at the soft cap to 0 at the hard cap. */
  lemma DensityFactorDescends(fewer: nat, more: nat, tuning: Tuning)
    requires fewer <= more
    ensures DensityFactor(fewer, tuning) >= DensityFactor(more, tuning)
    ensures fewer < tuning.softCap && fewer < tuning.hardCap ==> DensityFactor(fewer, tuning) == 1.0
    ensures fewer == tuning.softCap < tuning.hardCap ==> DensityFactor(fewer, tuning) == 0.6
  {
    DensityFactorRange(fewer, tuning);
    if tuning.softCap <= fewer && more < tuning.hardCap {
      var span := (tuning.hardCap - tuning.softCap) as real;
      QuotientOrder((fewer - tuning.softCap) as real, (more - tuning.softCap) as real, span);
    } else if tuning.softCap <= more < tuning.hardCap {
      assert DensityFactor(more, tuning) <= 1.0 by { DensityFactorRange(more, tuning); }
    }
  }

  lemma QuotientOrder(x: real, y: real, span: real)
    requires x <= y && span > 0.0
    ensures x / span <= y / span
  {
    var p, q := x / span, y / span;
    assert p * span == x && q * span == y;
    assert p > q ==> (p - q) * span > 0.0;
  }
}
