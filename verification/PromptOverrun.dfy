/** Exactly when a trimmed system text exceeds its allowance, and a pruned prompt its budget: the marker is
    14 characters longer than was left for it, and stripping at the two cuts may or may not make up for it. */
module PromptOverrun {
  import opened Strings
  import opened Tokens
  import opened PromptBudget
  import opened PromptBounds

  // ---- The length of a clipped text ----

  function HeadLength(chars: nat): (head: nat)
    ensures head <= chars
  {
    (chars as real * 0.7).Floor
  }

  /** The whitespace that is stripped at the two cuts of a text clipped to `chars` characters. */
  function CutAway(content: string, chars: nat): int
    requires 1000 <= chars < |content|
  {
    var head := HeadLength(chars);
    (head - |RStrip(content[..head])|) + (chars - head - 20 - |LStrip(LastChars(content, chars - head - 20))|)
  }

  lemma ClipLengthExactly(content: string, chars: nat, marker: string)
    requires 1000 <= chars < |content|
    ensures var head := HeadLength(chars);
            IntMax(180, chars - head - 20) == chars - head - 20
            && |Clip(content, head, marker, chars - head - 20)| == chars - 20 + |marker| - CutAway(content, chars)
  {
  }

  /** The text is too long for its tokens and for the characters that it may keep. */
  predicate Clipped(c: Config, system: Message, allowed: int)
    requires allowed >= 64
  {
    var content := Strip(Printed(system.content));
    EstimateText(c, content) > allowed && |content| > AllowedChars(c, allowed)
  }

  lemma AllowedIsAtLeast1000(c: Config, allowed: int)
    requires DefaultRates(c) && allowed >= 64
    ensures AllowedChars(c, allowed) == IntMax(1000, (allowed as real * 1.3).Floor)
  {
    assert Rate(c) == 1.3;
  }

  /** What a clipped message still holds. */
  lemma TrimToLengthExactly(system: Message, chars: nat, marker: string)
    requires 1000 <= chars < |Strip(Printed(system.content))| && |marker| == 34
    ensures TrimTo(system, chars, marker).content.Plain?
    ensures |TrimTo(system, chars, marker).content.text| == chars + 14 - CutAway(Strip(Printed(system.content)), chars)
  {
    ClipLengthExactly(Strip(Printed(system.content)), chars, marker);
  }

  /** Trimming leaves a message alone or clips it; `marker` is the source's. */
  lemma TrimCases(c: Config, system: Message, allowed: int, marker: string) returns (trimmed: Message)
    requires allowed >= 64 && marker == SYSTEM_MARKER
    ensures trimmed == TrimSystem(c, system, allowed)
    ensures if Clipped(c, system, allowed) then trimmed == TrimTo(system, AllowedChars(c, allowed), marker)
            else trimmed == system
  {
    trimmed := TrimSystem(c, system, allowed);
  }

  // ---- When an estimate exceeds a number of tokens ----

  /** How many characters a number of tokens is worth. */
  function Worth(tokens: int): int { (tokens as real * 1.3).Floor }

  lemma ExceedsExactly(length: nat, tokens: int)
    ensures TokensFor(length, 1.3) > tokens <==> tokens < 1 || length > Worth(tokens)
  {
    if tokens >= 1 {
      TokensFit(length, 1.3, tokens);
    }
  }

  lemma PlainExceedsExactly(c: Config, message: Message, tokens: int)
    requires DefaultRates(c) && message.content.Plain?
    ensures Cost(c, message) > 8 + tokens <==> tokens < 1 || |message.content.text| > Worth(tokens)
  {
    assert Rate(c) == 1.3;
    ExceedsExactly(|message.content.text|, tokens);
  }

  // ---- The allowance ----

  /** A message trimmed to `allowed` tokens stays within `tokens` of them only by being clipped, and by
      losing enough whitespace at the cuts. */
  predicate CutEnough(c: Config, system: Message, allowed: int, tokens: int)
    requires DefaultRates(c) && allowed >= 64
  {
    && tokens >= 1 && Clipped(c, system, allowed)
    && (AllowedIsAtLeast1000(c, allowed);
        var chars := AllowedChars(c, allowed);
        CutAway(Strip(Printed(system.content)), chars) >= chars + 14 - Worth(tokens))
  }

  /** A message that costs more than `tokens` still does after trimming, unless enough was cut away. */
  lemma TrimExceedsExactly(c: Config, system: Message, allowed: int, tokens: int)
    requires DefaultRates(c) && allowed >= 64 && system.content.Plain? && Cost(c, system) > 8 + tokens
    ensures Cost(c, TrimSystem(c, system, allowed)) > 8 + tokens <==> !CutEnough(c, system, allowed, tokens)
  {
    MarkerLength();
    var trimmed := TrimCases(c, system, allowed, SYSTEM_MARKER);
    AllowedIsAtLeast1000(c, allowed);
    if Clipped(c, system, allowed) {
      TrimToLengthExactly(system, AllowedChars(c, allowed), SYSTEM_MARKER);
      PlainExceedsExactly(c, trimmed, tokens);
    }
  }

  /** The allowance itself, from 770 tokens on: a text too long for it exceeds it after trimming exactly
      when fewer than 14 characters of whitespace were cut away. */
  lemma AllowanceIsExceededExactly(c: Config, system: Message, allowed: int)
    requires DefaultRates(c) && allowed >= 770 && system.content.Plain?
    requires EstimateText(c, Strip(system.content.text)) > allowed
    ensures AllowedChars(c, allowed) == Worth(allowed) && 1000 <= Worth(allowed) < |Strip(system.content.text)|
    ensures Cost(c, TrimSystem(c, system, allowed)) > 8 + allowed
            <==> CutAway(Strip(system.content.text), Worth(allowed)) < 14
  {
    LongTextIsClipped(c, system, allowed);
    StrippedIsCheaper(c, system, allowed);
    TrimExceedsExactly(c, system, allowed, allowed);
  }

  lemma LongTextIsClipped(c: Config, system: Message, allowed: int)
    requires DefaultRates(c) && allowed >= 770
    ensures EstimateText(c, Strip(Printed(system.content))) > allowed <==> Clipped(c, system, allowed)
    ensures AllowedChars(c, allowed) == Worth(allowed) >= 1000
    ensures Clipped(c, system, allowed) ==> |Strip(Printed(system.content))| > Worth(allowed)
  {
    assert Rate(c) == 1.3;
    AllowedIsAtLeast1000(c, allowed);
    ExceedsExactly(|Strip(Printed(system.content))|, allowed);
  }

  lemma StrippedIsCheaper(c: Config, system: Message, tokens: int)
    requires DefaultRates(c) && system.content.Plain? && EstimateText(c, Strip(system.content.text)) > tokens
    ensures Cost(c, system) > 8 + tokens
  {
    assert Rate(c) == 1.3;
    ExceedsExactly(|Strip(system.content.text)|, tokens);
    PlainExceedsExactly(c, system, tokens);
  }

  // ---- The budget ----

  /** What the user message leaves of the budget for the system text. */
  function Left(c: Config, user: Message, budget: int): int { budget - Cost(c, user) - 8 }

  lemma SettledPairExceedsExactly(c: Config, system: Message, user: Message, budget: int)
    requires DefaultRates(c) && system.content.Plain?
    ensures var left := Left(c, user, budget);
            Cost(c, Settle(c, system, [], user, budget)) + Cost(c, user) > budget
            <==> Cost(c, system) + Cost(c, user) > budget && !CutEnough(c, system, IntMax(64, left), left)
  {
    hide TokensFor;
    hide TrimSystem;
    hide CutEnough;
    hide Settle;
    assert Rate(c) == 1.3;
    var left := Left(c, user, budget);
    var settled, allowed := SettleCases(c, system, user, budget);
    if Cost(c, system) + Cost(c, user) > budget {
      TrimExceedsExactly(c, system, allowed, left);
    }
  }

  /** Any history only adds to the cost of the system and user messages. */
  lemma HistoryCosts(c: Config, system: Message, history: seq<Message>, user: Message)
    ensures Total(c, [system] + history + [user]) == Cost(c, system) + Total(c, history) + Cost(c, user)
  {
    hide TokensFor;
    TotalOfConcat(c, [system] + history, [user]);
    TotalOfConcat(c, [system], history);
    TotalOfOne(c, system);
    TotalOfOne(c, user);
  }

  /** A prompt of at least three messages still exceeds its budget after pruning exactly when the system
      and user messages alone exceed it, and the system text is not clipped or not enough was cut away. */
  lemma PromptExceedsExactly(c: Config, messages: seq<Message>, outputTokens: int)
    requires DefaultRates(c) && |messages| > 2 && messages[0].content.Plain?
    ensures var budget, system, user := InputBudget(c, outputTokens), messages[0], messages[|messages| - 1];
            var left := Left(c, user, budget);
            Total(c, Prune(c, messages, outputTokens)) > budget
            <==> Cost(c, system) + Cost(c, user) > budget && !CutEnough(c, system, IntMax(64, left), left)
  {
    hide TokensFor;
    var n, budget := |messages|, InputBudget(c, outputTokens);
    var system, user := messages[0], messages[n - 1];
    var recent := Recent(messages[1..n - 1], c.maxHistory);
    var kept := DropOldest(c, system, recent, user, budget);
    var settled := Settle(c, system, kept, user, budget);
    assert Prune(c, messages, outputTokens) == [settled] + kept + [user];
    DropOldestKeepsLongestFit(c, system, recent, user, budget);
    HistoryCosts(c, system, kept, user);
    HistoryCosts(c, settled, kept, user);
    if kept == [] {
      SettledPairExceedsExactly(c, system, user, budget);
    }
  }

  /** A composed prompt with some conversation, when the user message leaves 770 tokens: it still exceeds
      its budget after pruning exactly when system and user message alone do, and the stripped system
      text is within what is left, and so is not touched, or loses fewer than 14 characters. */
  lemma ComposedPromptExceedsExactly(c: Config, systemPrompt: string, history: seq<Message>, user: Content,
                                     notes: string, outputTokens: int)
    requires DefaultRates(c) && Conversation(history) != []
    requires Left(c, Message("user", user), InputBudget(c, outputTokens)) >= 770
    ensures var messages, budget := Compose(systemPrompt, history, user, notes), InputBudget(c, outputTokens);
            var left, text := Left(c, Message("user", user), budget), Strip(Printed(messages[0].content));
            && (EstimateText(c, text) > left ==> 1000 <= Worth(left) < |text|)
            && (Total(c, Prune(c, messages, outputTokens)) > budget
                <==> && Cost(c, messages[0]) + Cost(c, Message("user", user)) > budget
                     && (EstimateText(c, text) <= left || CutAway(text, Worth(left)) < 14))
  {
    hide TokensFor;
    var messages, budget := Compose(systemPrompt, history, user, notes), InputBudget(c, outputTokens);
    LongTextIsClipped(c, messages[0], Left(c, Message("user", user), budget));
    PromptExceedsExactly(c, messages, outputTokens);
  }

  // ---- The overrun is reached ----

  function Letters(n: nat): (s: string)
    ensures |s| == n && forall i :: 0 <= i < n ==> s[i] == 'a'
  {
    seq(n, _ => 'a')
  }

  lemma LettersStay(s: string)
    requires forall i :: 0 <= i < |s| ==> s[i] == 'a'
    ensures LStrip(s) == s && RStrip(s) == s && Strip(s) == s
  {
    LStripFixed(s);
    RStripFixed(s);
  }

  lemma NothingCutFromLetters(n: nat, chars: nat)
    requires 1000 <= chars < n
    ensures CutAway(Letters(n), chars) == 0
  {
    var head := HeadLength(chars);
    LettersStay(Letters(n)[..head]);
    LettersStay(LastChars(Letters(n), chars - head - 20));
  }

  /** Fourteen characters more than a number of tokens is worth are eleven tokens more, always. */
  lemma FourteenMore(tokens: int)
    requires tokens >= 1
    ensures TokensFor(Worth(tokens) + 14, 1.3) == tokens + 11
  {
    var length := Worth(tokens) + 14;
    var tenths := tokens * 13;
    assert tokens as real * 1.3 == tenths as real / 10.0;
    assert Worth(tokens) * 10 <= tenths <= Worth(tokens) * 10 + 9;
    TokensFit(length, 1.3, tokens + 11);
    TokensFit(length, 1.3, tokens + 10);
  }

  lemma ClippedLettersCost(c: Config, trimmed: Message, tokens: int)
    requires DefaultRates(c) && tokens >= 1
    requires trimmed.content.Plain? && |trimmed.content.text| == Worth(tokens) + 14
    ensures Cost(c, trimmed) == 8 + tokens + 11
  {
    assert Rate(c) == 1.3;
    FourteenMore(tokens);
  }

  lemma TrimmedLetters(system: Message, n: nat, chars: nat, marker: string)
    requires system.content == Plain(Letters(n)) && 1000 <= chars < n && |marker| == 34
    ensures TrimTo(system, chars, marker).content.Plain?
    ensures |TrimTo(system, chars, marker).content.text| == chars + 14
  {
    LettersStay(Letters(n));
    TrimToLengthExactly(system, chars, marker);
    NothingCutFromLetters(n, chars);
  }

  lemma LettersAreClipped(c: Config, system: Message, n: nat, allowed: int)
    requires DefaultRates(c) && allowed >= 770 && system.content == Plain(Letters(n)) && n > Worth(allowed)
    ensures Clipped(c, system, allowed) && AllowedChars(c, allowed) == Worth(allowed) >= 1000
    ensures Cost(c, system) > 8 + allowed
  {
    LettersStay(Letters(n));
    PlainExceedsExactly(c, system, allowed);
    LongTextIsClipped(c, system, allowed);
  }

  /** Any system text of letters too long for at least 770 tokens costs 11 more than that when trimmed. */
  lemma LettersOverrun(c: Config, system: Message, n: nat, allowed: int)
    requires DefaultRates(c) && allowed >= 770 && system.content == Plain(Letters(n)) && n > Worth(allowed)
    ensures Cost(c, TrimSystem(c, system, allowed)) == 8 + allowed + 11
    ensures Cost(c, system) > 8 + allowed
  {
    LettersAreClipped(c, system, n, allowed);
    MarkerLength();
    var trimmed := TrimCases(c, system, allowed, SYSTEM_MARKER);
    TrimmedLetters(system, n, Worth(allowed), SYSTEM_MARKER);
    ClippedLettersCost(c, trimmed, allowed);
  }

  lemma SettledLettersOverrun(c: Config, system: Message, n: nat, user: Message, budget: int)
    requires DefaultRates(c) && Left(c, user, budget) >= 770
    requires system.content == Plain(Letters(n)) && n > Worth(Left(c, user, budget))
    ensures Cost(c, system) + Cost(c, user) > budget
    ensures Cost(c, Settle(c, system, [], user, budget)) + Cost(c, user) == budget + 11
  {
    hide TokensFor;
    hide TrimSystem;
    hide Settle;
    LettersOverrun(c, system, n, Left(c, user, budget));
    var settled, allowed := SettleCases(c, system, user, budget);
  }

  /** The overrun of 11 tokens is reached by whole prompts, for every user message and output length that
      leave 770 tokens, and every conversation: a system prompt of letters, pruned to one budget and 11. */
  lemma OverrunIsReached(c: Config, n: nat, history: seq<Message>, user: Content, outputTokens: int)
    requires DefaultRates(c) && Conversation(history) != [] && (forall m :: m in history ==> m.role != "system")
    requires Left(c, Message("user", user), InputBudget(c, outputTokens)) >= 770
    requires n > Worth(Left(c, Message("user", user), InputBudget(c, outputTokens)))
    ensures Total(c, Prune(c, Compose(Letters(n), history, user, ""), outputTokens))
            == InputBudget(c, outputTokens) + 11
  {
    hide TokensFor;
    var budget, last := InputBudget(c, outputTokens), Message("user", user);
    var messages := Compose(Letters(n), history, user, "");
    var system := messages[0];
    LettersAreComposed(Letters(n), history, EXTRA_LABEL);
    SettledLettersOverrun(c, system, n, last, budget);
    var recent := Recent(messages[1..|messages| - 1], c.maxHistory);
    var kept := DropOldest(c, system, recent, last, budget);
    DropOldestKeepsLongestFit(c, system, recent, last, budget);
    HistoryCosts(c, system, kept, last);
    assert kept == [];
    var settled := Settle(c, system, [], last, budget);
    assert Prune(c, messages, outputTokens) == [settled] + [] + [last];
    HistoryCosts(c, settled, [], last);
  }

  /** For instance as shipped, with a "hi" before, a "hi" now, and 1024 tokens for the answer. */
  lemma ShippedOverrun()
    ensures var hi := Plain("hi");
            InputBudget(DEFAULT_CONFIG, 1024) == 2560
            && Total(DEFAULT_CONFIG,
                     Prune(DEFAULT_CONFIG, Compose(Letters(5000), [Message("user", hi)], hi, ""), 1024)) == 2571
  {
    hide Prune;
    hide Compose;
    hide Total;
    var c, hi := DEFAULT_CONFIG, Message("user", Plain("hi"));
    DefaultsHaveDefaultRates();
    assert Rate(c) == 1.3 && |"hi"| == 2;
    ExceedsExactly(2, 2);
    ExceedsExactly(2, 1);
    assert Cost(c, hi) == 10 && Left(c, hi, 2560) == 2542 && Worth(2542) == 3304;
    assert Conversation([hi]) == [hi] by { assert [hi][..0] == [] && |hi.role| == 4 && |"system"| == 6; }
    OverrunIsReached(c, 5000, [hi], Plain("hi"), 1024);
  }

  lemma LettersAreComposed(text: string, history: seq<Message>, heading: string)
    requires forall i :: 0 <= i < |text| ==> text[i] == 'a'
    requires forall m :: m in history ==> m.role != "system"
    ensures WithExtras(MergeNotes(text, NOTES_LABEL, ""), heading, history) == text
  {
    LettersStay(text);
    assert text + "" == text;
    NoExtras(text, heading, history);
  }

  lemma {:induction false} NoExtras(content: string, heading: string, history: seq<Message>)
    requires forall m :: m in history ==> m.role != "system"
    ensures WithExtras(content, heading, history) == content
  {
    if history != [] {
      NoExtras(content, heading, history[..|history| - 1]);
      assert history[|history| - 1] in history;
      assert content + "" == content;
    }
  }
}
