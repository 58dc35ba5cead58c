/** Estimated token counts: characters divided by characters-per-token, rounded up. */
module Tokens {
  function Ceil(x: real): int {
    -((-x).Floor)
  }

  function IntMax(a: int, b: int): int { if a < b then b else a }

  /** At least one token; `rate` is the number of characters per token. */
  function TokensFor(length: nat, rate: real): int
    requires rate >= 1.0
  {
    IntMax(1, Ceil(length as real / rate))
  }

  /** A count fits a positive number of tokens exactly when its characters do. */
  lemma TokensFit(length: nat, rate: real, tokens: int)
    requires rate >= 1.0 && tokens >= 1
    ensures TokensFor(length, rate) <= tokens <==> length as real <= tokens as real * rate
  {
    var q := length as real / rate;
    assert q * rate == length as real;
    if q <= tokens as real {
      assert (tokens as real - q) * rate >= 0.0;
    } else {
      assert (q - tokens as real) * rate > 0.0;
    }
  }
}
