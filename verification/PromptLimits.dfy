/** Where the bounds of prompt clipping are sharp, and where there are none. */
module PromptLimits {
  import opened Strings
  import opened Tokens
  import opened PromptBudget
  import opened PromptBounds
  import opened PromptOverrun

  lemma ClippedLetters(n: nat, head: nat, marker: string, tail: nat)
    requires head <= n && tail <= n
    ensures |Clip(Letters(n), head, marker, tail)| == head + |marker| + tail
  {
    LettersStay(Letters(n)[..head]);
    LettersStay(LastChars(Letters(n), tail));
  }

  /** Without any conversation nothing is pruned: the system text is sent at any length. */
  lemma WithoutConversationNothingIsPruned(c: Config, user: Content, outputTokens: int, bound: nat)
    requires DefaultRates(c)
    ensures var prompt := Letters(2 * bound + 2);
            Total(c, Prune(c, Compose(prompt, [], user, ""), outputTokens)) > bound
  {
    var prompt := Letters(2 * bound + 2);
    LettersStay(prompt);
    assert Section(NOTES_LABEL, "") == "" && prompt + "" == prompt;
    var system, last := Message("system", Plain(prompt)), Message("user", user);
    assert Conversation([]) == [] && WithExtras(prompt, EXTRA_LABEL, []) == prompt;
    assert Compose(prompt, [], user, "") == [system] + [] + [last];
    PairCost(c, system, last);
    assert Rate(c) == 1.3;
    TokensFit(2 * bound + 2, 1.3, bound + 1);
  }

  lemma HintClipLength(limit: nat)
    requires limit >= 346
    ensures var head := (limit as real * 0.6).Floor;
            head + 19 + IntMax(120, limit - head - 20) <= limit
  {
  }

  lemma CleanedIsBounded(cleaned: string, limit: nat, marker: string)
    requires limit >= 346 && |marker| == 19
    ensures |ClipCleaned(cleaned, limit, marker)| <= limit
  {
    if |cleaned| > limit {
      HintClipLength(limit);
      var head := (limit as real * 0.6).Floor;
      ClipLength(cleaned, head, marker, IntMax(120, limit - head - 20));
    }
  }

  lemma CleanedOverflows(limit: nat, marker: string)
    requires limit < 346 && |marker| == 19
    ensures |ClipCleaned(Letters(500), limit, marker)| > limit
  {
    var head := (limit as real * 0.6).Floor;
    assert head <= 500 && IntMax(120, limit - head - 20) == 120;
    ClippedLetters(500, head, marker, 120);
  }

  lemma HintMarkerLength()
    ensures |HINT_MARKER| == 19
  {
  }

  /** Clipped memory hints respect their limit exactly when the limit is at least 346. */
  lemma HintLimitIsRespectedExactly(limit: nat)
    ensures (forall hint :: |ClipHint(hint, limit)| <= limit) <==> limit >= 346
  {
    HintMarkerLength();
    if limit >= 346 {
      forall hint ensures |ClipHint(hint, limit)| <= limit {
        CleanedIsBounded(Strip(hint), limit, HINT_MARKER);
      }
    } else {
      LettersStay(Letters(500));
      CleanedOverflows(limit, HINT_MARKER);
      assert |ClipHint(Letters(500), limit)| > limit;
    }
  }
}
