/** What is in a composed, pruned or clipped prompt, beyond its length. */
module PromptContents {
  import opened Strings
  import opened Tokens
  import opened PromptBudget
  import opened PromptBounds

  // ---- Clipped texts ----

  /** `left` is what remains of the start of a text up to `head`, and `right` of its last `tail` characters:
      only whitespace next to the cuts is missing. */
  ghost predicate Ends(text: string, head: nat, tail: nat, left: string, right: string) {
    && head <= |text| && |left| <= head && left == text[..|left|]
    && (forall i :: |left| <= i < head ==> IsSpace(text[i]))
    && |right| <= |text| && |right| <= tail && right == text[|text| - |right|..]
    && (forall i :: |text| - tail <= i < |text| - |right| && 0 <= i ==> IsSpace(text[i]))
  }

  /** A clip is the start of the text, the marker, and the end of the text, in this order. */
  lemma ClipKeepsBothEnds(text: string, head: nat, marker: string, tail: nat) returns (left: string, right: string)
    requires head <= |text|
    ensures Clip(text, head, marker, tail) == left + marker + right && Ends(text, head, tail, left, right)
  {
    hide IsSpace;
    hide RStrip;
    hide LStrip;
    left := ClippedStart(text, head);
    right := ClippedEnd(text, tail);
  }

  lemma ClippedStart(text: string, head: nat) returns (left: string)
    requires head <= |text|
    ensures left == RStrip(text[..head])
    ensures |left| <= head && left == text[..|left|] && forall i :: |left| <= i < head ==> IsSpace(text[i])
  {
    hide IsSpace;
    hide RStrip;
    var start := text[..head];
    left := RStrip(start);
    RStripDropsSpace(start);
    assert left == start[..|left|];
    forall i | |left| <= i < head ensures IsSpace(text[i]) {
      assert start[i] == text[i];
    }
  }

  lemma ClippedEnd(text: string, tail: nat) returns (right: string)
    ensures right == LStrip(LastChars(text, tail))
    ensures |right| <= |text| && |right| <= tail && right == text[|text| - |right|..]
    ensures forall i :: |text| - tail <= i < |text| - |right| && 0 <= i ==> IsSpace(text[i])
  {
    hide IsSpace;
    hide LStrip;
    var end := LastChars(text, tail);
    var from := |text| - |end|;
    right := LStrip(end);
    LStripDropsSpace(end);
    assert end == text[from..];
    forall i | |text| - tail <= i < |text| - |right| && 0 <= i ensures IsSpace(text[i]) {
      assert end[i - from] == text[i];
    }
  }

  /** A trimmed system message keeps its role, seven tenths of its allowance from the start of the stripped
      text, and the rest less twenty characters, but at least 180, from the end. */
  lemma TrimKeepsBothEnds(system: Message, chars: nat, marker: string) returns (left: string, right: string)
    requires |Strip(Printed(system.content))| > chars
    ensures TrimTo(system, chars, marker) == Message("system", Plain(left + marker + right))
    ensures var head := (chars as real * 0.7).Floor;
            var tail := if chars - head - 20 > 180 then chars - head - 20 else 180;
            0 <= head && Ends(Strip(Printed(system.content)), head, tail, left, right)
  {
    hide TrimTo;
    hide Clip;
    hide Ends;
    hide Strip;
    hide Printed;
    var text := Strip(Printed(system.content));
    var head, tail := TrimClips(system, chars, marker, text);
    left, right := ClipKeepsBothEnds(text, head, marker, tail);
  }

  lemma TrimClips(system: Message, chars: nat, marker: string, text: string) returns (head: nat, tail: nat)
    requires text == Strip(Printed(system.content)) && |text| > chars
    ensures head == (chars as real * 0.7).Floor && head <= |text|
    ensures tail == if chars - head - 20 > 180 then chars - head - 20 else 180
    ensures TrimTo(system, chars, marker) == Message("system", Plain(Clip(text, head, marker, tail)))
  {
    hide Clip;
    hide Strip;
    hide Printed;
    head := (chars as real * 0.7).Floor;
    tail := IntMax(180, chars - head - 20);
  }

  /** A clipped memory hint keeps six tenths of its limit from the start, and the rest less twenty characters,
      but at least 120, from the end; a hint within its limit is only stripped. */
  lemma HintKeepsBothEnds(hint: string, limit: nat) returns (left: string, right: string)
    ensures |Strip(hint)| <= limit ==> ClipHint(hint, limit) == Strip(hint)
    ensures |Strip(hint)| > limit ==>
      var head := (limit as real * 0.6).Floor;
      var tail := if limit - head - 20 > 120 then limit - head - 20 else 120;
      && ClipHint(hint, limit) == left + HINT_MARKER + right
      && 0 <= head && Ends(Strip(hint), head, tail, left, right)
  {
    hide ClipCleaned;
    hide Clip;
    hide Ends;
    hide Strip;
    left, right := "", "";
    if |Strip(hint)| > limit {
      var head, tail := HintClips(Strip(hint), limit, HINT_MARKER);
      left, right := ClipKeepsBothEnds(Strip(hint), head, HINT_MARKER, tail);
    } else {
      ShortHint(Strip(hint), limit, HINT_MARKER);
    }
  }

  lemma ShortHint(cleaned: string, limit: nat, marker: string)
    requires |cleaned| <= limit
    ensures ClipCleaned(cleaned, limit, marker) == cleaned
  {
  }

  lemma HintClips(cleaned: string, limit: nat, marker: string) returns (head: nat, tail: nat)
    requires |cleaned| > limit
    ensures head == (limit as real * 0.6).Floor && head <= |cleaned|
    ensures tail == if limit - head - 20 > 120 then limit - head - 20 else 120
    ensures ClipCleaned(cleaned, limit, marker) == Clip(cleaned, head, marker, tail)
  {
    hide Clip;
    head := (limit as real * 0.6).Floor;
    tail := IntMax(120, limit - head - 20);
  }

  // ---- Pruned histories ----

  /** The kept history is the end of the messages before the last; it has at most `maxHistory` messages if that
      is positive, and either all of them, or as many as that, or one more would not fit. */
  lemma PrunedHistoryIsTheEnd(c: Config, messages: seq<Message>, outputTokens: int)
    requires |messages| > 2
    ensures var result, n := Prune(c, messages, outputTokens), |messages|;
            var k := |result| - 2;
            && 0 <= k <= n - 2 && result[1..] == messages[n - 1 - k..]
            && (c.maxHistory > 0 ==> k <= c.maxHistory)
            && (k < n - 2 && (c.maxHistory > 0 ==> k < c.maxHistory) ==>
                  Total(c, [messages[0]] + messages[n - 2 - k..]) > InputBudget(c, outputTokens))
  {
    hide Prune;
    hide DropOldest;
    hide Total;
    hide Recent;
    hide Fits;
    var result, n := Prune(c, messages, outputTokens), |messages|;
    var recent := Recent(messages[1..n - 1], c.maxHistory);
    var k := |result| - 2;
    PruneKeepsLongestSuffix(c, messages, outputTokens);
    RecentIsTheEnd(messages, c.maxHistory);
    KeptIsTheEnd(messages, recent, result, k);
    if k < |recent| {
      OneMoreOverflows(c, messages, recent, k, InputBudget(c, outputTokens));
    }
  }

  lemma KeptIsTheEnd(messages: seq<Message>, recent: seq<Message>, result: seq<Message>, k: nat)
    requires k <= |recent| < |messages| && |result| == k + 2
    requires recent == messages[|messages| - 1 - |recent|..|messages| - 1]
    requires result[1..k + 1] == recent[|recent| - k..] && result[k + 1] == messages[|messages| - 1]
    ensures result[1..] == messages[|messages| - 1 - k..]
  {
    EndOf(messages, |recent|, k);
    assert result[1..] == result[1..k + 1] + [result[k + 1]];
  }

  lemma OneMoreOverflows(c: Config, messages: seq<Message>, recent: seq<Message>, k: nat, budget: int)
    requires k < |recent| <= |messages| - 2
    requires recent == messages[|messages| - 1 - |recent|..|messages| - 1]
    requires !Fits(c, messages[0], recent[|recent| - (k + 1)..], messages[|messages| - 1], budget)
    ensures Total(c, [messages[0]] + messages[|messages| - 2 - k..]) > budget
  {
    hide Total;
    var more, last := recent[|recent| - (k + 1)..], messages[|messages| - 1];
    EndOf(messages, |recent|, k + 1);
    assert [messages[0]] + more + [last] == [messages[0]] + (more + [last]);
  }

  lemma RecentIsTheEnd(messages: seq<Message>, limit: int)
    requires |messages| > 2
    ensures var recent, n := Recent(messages[1..|messages| - 1], limit), |messages|;
            && |recent| <= n - 2 && recent == messages[n - 1 - |recent|..n - 1]
            && (limit > 0 ==> |recent| <= limit)
            && (|recent| == n - 2 || 0 < limit == |recent|)
  {
  }

  lemma EndOf(messages: seq<Message>, length: nat, k: nat)
    requires k <= length < |messages|
    ensures var n := |messages|;
            messages[n - 1 - length..n - 1][length - k..] + [messages[n - 1]] == messages[n - 1 - k..]
  {
    var n := |messages|;
    assert messages[n - 1 - length..n - 1][length - k..] == messages[n - 1 - k..n - 1];
    assert messages[n - 1 - k..] == messages[n - 1 - k..n - 1] + [messages[n - 1]];
  }

  /** The budget is what context, output and margin leave, but never less than 512. */
  lemma InputBudgetTable(c: Config, outputTokens: int)
    ensures InputBudget(c, outputTokens) >= 512
    ensures InputBudget(c, outputTokens) > 512 ==>
      InputBudget(c, outputTokens) + outputTokens + c.contextMargin == c.ctxSize
    ensures InputBudget(c, outputTokens) >= c.ctxSize - outputTokens - c.contextMargin
  {
  }

  /** As shipped that is 3584 tokens less the output, and an image counts for 256. */
  lemma ShippedBudgets(outputTokens: int)
    ensures InputBudget(DEFAULT_CONFIG, outputTokens) == (if outputTokens < 3072 then 3584 - outputTokens else 512)
    ensures Cost(DEFAULT_CONFIG, Message("user", Blocks([ImageBlock], ""))) == 264
    ensures DEFAULT_CONFIG.maxHistory == 8
  {
    assert EstimateBlocks(DEFAULT_CONFIG, [ImageBlock][1..]) == 0;
  }

  // ---- Estimates ----

  /** A message costs 8 tokens and its content: a text at least one, one more block its own estimate, an image a
      fixed number. */
  lemma MessageCosts(c: Config, role: string, blocks: seq<Block>, block: Block, printed: string)
    ensures Cost(c, Message(role, Blocks([], printed))) == 8
    ensures Cost(c, Message(role, Blocks(blocks + [block], printed))) - Cost(c, Message(role, Blocks(blocks, printed)))
            == match block
               case TextBlock(text) => Cost(c, Message(role, Plain(text))) - 8
               case ImageBlock => c.imageCost
               case OtherBlock(text) => Cost(c, Message(role, Other(text))) - 8
  {
    hide TokensFor;
    OneMoreBlock(c, blocks, block);
  }

  lemma {:induction false} OneMoreBlock(c: Config, blocks: seq<Block>, block: Block)
    ensures EstimateBlocks(c, blocks + [block]) == EstimateBlocks(c, blocks) + EstimateBlock(c, block)
  {
    hide TokensFor;
    if blocks == [] {
      assert [] + [block] == [block] && [block][1..] == [];
      assert EstimateBlocks(c, []) == 0;
    } else {
      OneMoreBlock(c, blocks[1..], block);
      assert (blocks + [block])[1..] == blocks[1..] + [block];
    }
  }

  lemma TextCosts(c: Config, role: string, text: string)
    requires c.charsPerToken == 1.3
    ensures text == "" ==> Cost(c, Message(role, Plain(text))) == 9
    ensures var tokens := Cost(c, Message(role, Plain(text))) - 8;
            tokens >= 1 && |text| as real <= tokens as real * 1.3
            && (tokens > 1 ==> |text| as real > (tokens - 1) as real * 1.3)
  {
    assert Rate(c) == 1.3;
    var tokens := EstimateText(c, text);
    TokensFit(|text|, 1.3, tokens);
    if tokens > 1 {
      TokensFit(|text|, 1.3, tokens - 1);
    }
  }

  // ---- Composed prompts ----

  /** Without history: the stripped system prompt, with the notes under their label if there are any, and the
      user's content. */
  lemma ComposedWithoutHistory(systemPrompt: string, user: Content, notes: string)
    ensures var messages := Compose(systemPrompt, [], user, notes);
            && |messages| == 2 && messages[1] == Message("user", user)
            && messages[0] == Message("system", Plain(
                 if Strip(notes) == "" then Strip(systemPrompt)
                 else Strip(systemPrompt) + NOTES_LABEL + Strip(notes)))
  {
    hide Strip;
    var prompt, noted := Strip(systemPrompt), Strip(notes);
    assert prompt + "" == prompt;
    assert prompt + (NOTES_LABEL + noted) == prompt + NOTES_LABEL + noted;
  }

  /** What the two labels say after their blank line and opening bracket. */
  lemma LabelsAre()
    ensures NOTES_LABEL[..3] == "\n\n[" && NOTES_LABEL[3..] == "Hidden analysis notes for internal use only]\n"
    ensures EXTRA_LABEL[..3] == "\n\n[" && EXTRA_LABEL[3..] == "Additional system context]\n"
  {
  }

  /** One more message of history: a system text goes to the end of the first message under its label, unless it
      is blank; any other message goes, unchanged, just before the user's. */
  lemma ComposedWithOneMore(systemPrompt: string, history: seq<Message>, m: Message, user: Content, notes: string)
    ensures var before := Compose(systemPrompt, history, user, notes);
            var after := Compose(systemPrompt, history + [m], user, notes);
            var n := |before|;
            && n >= 2 && before[0].content.Plain?
            && (m.role != "system" ==> after == before[..n - 1] + [m] + before[n - 1..])
            && (m.role == "system" && Strip(Printed(m.content)) == "" ==> after == before)
            && (m.role == "system" && Strip(Printed(m.content)) != "" ==>
                  after == [Message("system", Plain(before[0].content.text + EXTRA_LABEL + Strip(Printed(m.content))))]
                           + before[1..])
  {
    hide WithExtras;
    hide Conversation;
    hide MergeNotes;
    hide Section;
    hide Strip;
    hide Printed;
    var text := WithExtras(MergeNotes(systemPrompt, NOTES_LABEL, notes), EXTRA_LABEL, history);
    ExtrasOneMore(MergeNotes(systemPrompt, NOTES_LABEL, notes), EXTRA_LABEL, history, m);
    ConversationOneMore(history, m);
    SectionIs(text, EXTRA_LABEL, Printed(m.content));
    var system, talk, last := Message("system", Plain(text)), Conversation(history), Message("user", user);
    assert Compose(systemPrompt, history, user, notes) == [system] + talk + [last];
    Around(system, talk, last, m);
    if m.role == "system" {
      var more := Message("system", Plain(text + Section(EXTRA_LABEL, Printed(m.content))));
      assert Compose(systemPrompt, history + [m], user, notes) == [more] + (talk + []) + [last];
      Around(more, talk, last, m);
    } else {
      assert Compose(systemPrompt, history + [m], user, notes)
          == [Message("system", Plain(text + ""))] + (talk + [m]) + [last];
    }
  }

  lemma Around(first: Message, talk: seq<Message>, last: Message, m: Message)
    ensures var before := [first] + talk + [last];
            && |before| == |talk| + 2 && before[0] == first && before[1..] == talk + [last]
            && before == [first] + (talk + [last]) && talk + [] == talk
            && [first] + (talk + [m]) + [last] == before[..|before| - 1] + [m] + before[|before| - 1..]
  {
  }

  lemma ExtrasOneMore(content: string, heading: string, history: seq<Message>, m: Message)
    ensures WithExtras(content, heading, history + [m])
         == WithExtras(content, heading, history)
            + (if m.role == "system" then Section(heading, Printed(m.content)) else "")
  {
    assert (history + [m])[..|history|] == history;
  }

  lemma ConversationOneMore(history: seq<Message>, m: Message)
    ensures Conversation(history + [m]) == Conversation(history) + if m.role == "system" then [] else [m]
  {
    assert (history + [m])[..|history|] == history;
  }

  lemma SectionIs(text: string, heading: string, extra: string)
    ensures text + "" == text
    ensures text + Section(heading, extra) == if Strip(extra) == "" then text else text + heading + Strip(extra)
  {
    assert text + (heading + Strip(extra)) == text + heading + Strip(extra);
  }
}
