/** Composing the messages of a prompt, and how far a pruned prompt can exceed its budget. */
module PromptBounds {
  import opened Strings
  import opened Tokens
  import opened PromptBudget

  const NOTES_LABEL := "\n\n[" + "Hidden analysis notes for internal use only]\n"
  const EXTRA_LABEL := "\n\n[" + "Additional system context]\n"

  /** `text` stripped, under a heading; nothing if nothing is left of it. */
  function Section(heading: string, text: string): string {
    if Strip(text) != "" then heading + Strip(text) else ""
  }

  function MergeNotes(systemPrompt: string, heading: string, notes: string): string {
    Strip(systemPrompt) + Section(heading, notes)
  }

  /** System messages of the history are folded into the first message, oldest first. */
  function WithExtras(content: string, heading: string, history: seq<Message>): string {
    if history == [] then content
    else
      var last := history[|history| - 1];
      WithExtras(content, heading, history[..|history| - 1])
      + if last.role == "system" then Section(heading, Printed(last.content)) else ""
  }

  function Conversation(history: seq<Message>): seq<Message> {
    if history == [] then []
    else
      var last := history[|history| - 1];
      Conversation(history[..|history| - 1]) + if last.role == "system" then [] else [last]
  }

  function Compose(systemPrompt: string, history: seq<Message>, user: Content, notes: string): seq<Message> {
    [Message("system", Plain(WithExtras(MergeNotes(systemPrompt, NOTES_LABEL, notes), EXTRA_LABEL, history)))]
    + Conversation(history) + [Message("user", user)]
  }

  method ComposeMessages(systemPrompt: string, history: seq<Message>, user: Content, notes: string)
    returns (messages: seq<Message>)
    ensures messages == Compose(systemPrompt, history, user, notes)
  {
    var merged := AppendSection(Strip(systemPrompt), NOTES_LABEL, notes);
    messages := FoldHistory("system", merged, EXTRA_LABEL, history);
    messages := messages + [Message("user", user)];
  }

  method AppendSection(content: string, heading: string, text: string) returns (longer: string)
    ensures longer == content + Section(heading, text)
  {
    longer := content;
    var extra := Strip(text);
    if extra != "" {
      longer := longer + (heading + extra);
    } else {
      assert content + "" == content;
    }
  }

  /** The loop over the history; the first message collects the system texts. */
  method FoldHistory(role: string, merged: string, heading: string, history: seq<Message>)
    returns (messages: seq<Message>)
    ensures messages == [Message(role, Plain(WithExtras(merged, heading, history)))] + Conversation(history)
  {
    messages := [Message(role, Plain(merged))];
    for i := 0 to |history|
      invariant messages
             == [Message(role, Plain(WithExtras(merged, heading, history[..i])))] + Conversation(history[..i])
    {
      assert history[..i + 1][..i] == history[..i];
      var item := history[i];
      var text := messages[0].content.text;
      if item.role == "system" {
        text := AppendSection(text, heading, Printed(item.content));
        messages := [Message(role, Plain(text))] + messages[1..];
        assert Conversation(history[..i]) + [] == Conversation(history[..i]);
      } else {
        assert text + "" == text;
        messages := messages + [item];
      }
    }
    assert history[..|history|] == history;
  }

  // ---- A composed system text is all but stripped ----

  predicate OpensLabel(s: string) {
    |s| > 2 && s[0] == '\n' && s[1] == '\n' && s[2] == '['
  }

  lemma HeadingsOpenLabels()
    ensures OpensLabel(NOTES_LABEL) && OpensLabel(EXTRA_LABEL)
  {
  }

  /** Nothing to strip at the end, and at most two newlines before a label at the start. */
  ghost predicate Neat(s: string) {
    s != "" ==> !IsSpace(s[|s| - 1]) && (!IsSpace(s[0]) || OpensLabel(s))
  }

  /** Nothing, or a labelled piece of text without trailing whitespace. */
  ghost predicate Attachment(piece: string) {
    piece != "" ==> OpensLabel(piece) && !IsSpace(piece[|piece| - 1])
  }

  lemma SectionIsAttachment(heading: string, text: string)
    requires OpensLabel(heading)
    ensures Attachment(Section(heading, text))
  {
    var extra := Strip(text);
    if extra != "" {
      AttachmentOf(heading, extra);
    }
  }

  lemma AttachmentOf(heading: string, extra: string)
    requires OpensLabel(heading) && extra != "" && !IsSpace(extra[|extra| - 1])
    ensures Attachment(heading + extra)
  {
  }

  lemma AttachingKeepsNeat(s: string, piece: string)
    requires Neat(s) && Attachment(piece)
    ensures Neat(s + piece)
  {
    assert s == "" ==> s + piece == piece;
    assert piece == "" ==> s + piece == s;
  }

  lemma {:induction false} ExtrasKeepNeat(content: string, heading: string, history: seq<Message>)
    requires Neat(content) && OpensLabel(heading)
    ensures Neat(WithExtras(content, heading, history))
  {
    if history != [] {
      var before, last := history[..|history| - 1], history[|history| - 1];
      ExtrasKeepNeat(content, heading, before);
      var piece := if last.role == "system" then Section(heading, Printed(last.content)) else "";
      assert Attachment(piece) by { SectionIsAttachment(heading, Printed(last.content)); }
      AttachingKeepsNeat(WithExtras(content, heading, before), piece);
    }
  }

  lemma ComposedIsNeat(systemPrompt: string, notesHeading: string, notes: string, heading: string,
                       history: seq<Message>)
    requires OpensLabel(notesHeading) && OpensLabel(heading)
    ensures Neat(WithExtras(MergeNotes(systemPrompt, notesHeading, notes), heading, history))
  {
    SectionIsAttachment(notesHeading, notes);
    AttachingKeepsNeat(Strip(systemPrompt), Section(notesHeading, notes));
    ExtrasKeepNeat(MergeNotes(systemPrompt, notesHeading, notes), heading, history);
  }

  lemma NeatStrips(s: string)
    requires Neat(s)
    ensures |s| <= |Strip(s)| + 2
  {
    if s != "" {
      if IsSpace(s[0]) {
        LabelStrips(s);
        RStripFixed(s[2..]);
      } else {
        LStripFixed(s);
        RStripFixed(s);
      }
    }
  }

  lemma LStripOne(s: string)
    requires s != "" && IsSpace(s[0])
    ensures LStrip(s) == LStrip(s[1..])
  {
  }

  lemma LabelStrips(s: string)
    requires OpensLabel(s)
    ensures LStrip(s) == s[2..]
  {
    var t := s[1..];
    assert t[0] == s[1] && t[1..] == s[2..] && s[2..][0] == '[';
    LStripOne(s);
    LStripOne(t);
    LStripFixed(s[2..]);
  }

  // ---- The overshoot of a trimmed system message ----

  /** The configuration facts the numbers below depend on. */
  ghost predicate DefaultRates(c: Config) {
    c.charsPerToken == 1.3 && c.minSystemChars == 1000 && c.contextMargin == 512
  }

  lemma DefaultsHaveDefaultRates()
    ensures DefaultRates(DEFAULT_CONFIG)
  {
  }

  lemma TwoMoreCharacters(short: nat, long: nat, tokens: int)
    requires long <= short + 2 && tokens >= 1 && TokensFor(short, 1.3) <= tokens
    ensures TokensFor(long, 1.3) <= tokens + 2
  {
    TokensFit(short, 1.3, tokens);
    TokensFit(long, 1.3, tokens + 2);
  }

  lemma MarkerLength()
    ensures |SYSTEM_MARKER| == 34
  {
  }

  lemma ClippedLength(content: string, allowedChars: nat, marker: string)
    requires |marker| == 34 && 1000 <= allowedChars < |content|
    ensures var head := (allowedChars as real * 0.7).Floor;
            var tail := IntMax(180, allowedChars - head - 20);
            && 0 <= head <= |content| && tail == allowedChars - head - 20
            && |Clip(content, head, marker, tail)| <= allowedChars + 14
  {
    var head := (allowedChars as real * 0.7).Floor;
    var tail := IntMax(180, allowedChars - head - 20);
    assert tail == allowedChars - head - 20;
    ClipLength(content, head, marker, tail);
  }

  /** Clipping leaves at most 14 characters more than allowed. */
  lemma TrimToLength(system: Message, allowedChars: nat, marker: string)
    requires |marker| == 34 && allowedChars >= 1000
    ensures var trimmed := TrimTo(system, allowedChars, marker);
            if |Strip(Printed(system.content))| <= allowedChars then trimmed == system
            else trimmed.content.Plain? && |trimmed.content.text| <= allowedChars + 14
  {
    var content := Strip(Printed(system.content));
    if |content| > allowedChars {
      ClippedLength(content, allowedChars, marker);
    }
  }

  lemma AllowedAtDefaultRate(c: Config, allowed: int)
    requires DefaultRates(c) && allowed >= 64
    ensures 1000 <= AllowedChars(c, allowed) && AllowedChars(c, allowed) as real <= IntMax(770, allowed) as real * 1.3
  {
    assert Rate(c) == 1.3;
  }

  /** A neat text that is left alone or clipped has at most 14 characters too many. */
  lemma TrimmedLength(system: Message, allowedChars: nat, marker: string) returns (trimmed: Message)
    requires |marker| == 34 && allowedChars >= 1000
    requires system.content.Plain? && Neat(system.content.text)
    ensures trimmed == TrimTo(system, allowedChars, marker)
    ensures trimmed.content.Plain? && |trimmed.content.text| <= allowedChars + 14
  {
    trimmed := TrimTo(system, allowedChars, marker);
    TrimToLength(system, allowedChars, marker);
    NeatStrips(system.content.text);
  }

  /** Fourteen characters more than some tokens are worth cost at most 11 tokens more. */
  lemma PlainCostAtMost(c: Config, message: Message, chars: nat, tokens: int)
    requires DefaultRates(c) && tokens >= 1 && chars as real <= tokens as real * 1.3
    requires message.content.Plain? && |message.content.text| <= chars + 14
    ensures Cost(c, message) <= 8 + tokens + 11
  {
    assert Rate(c) == 1.3;
    TokensFit(|message.content.text|, 1.3, tokens + 11);
  }

  lemma TrimmedCost(c: Config, system: Message, allowedChars: nat, marker: string, tokens: int)
    requires |marker| == 34
    requires DefaultRates(c) && 1000 <= allowedChars && allowedChars as real <= tokens as real * 1.3
    requires system.content.Plain? && Neat(system.content.text)
    ensures Cost(c, TrimTo(system, allowedChars, marker)) <= 8 + tokens + 11
  {
    var trimmed := TrimmedLength(system, allowedChars, marker);
    PlainCostAtMost(c, trimmed, allowedChars, tokens);
  }

  /** A trimmed neat system text costs at most 11 tokens more than it is allowed, or than the 770
      tokens that the smallest kept system text is worth. */
  lemma TrimOvershoot(c: Config, system: Message, allowed: int)
    requires DefaultRates(c) && allowed >= 64
    requires system.content.Plain? && Neat(system.content.text)
    ensures Cost(c, TrimSystem(c, system, allowed)) <= 8 + IntMax(770, allowed) + 11
  {
    hide Clip;
    hide TokensFor;
    if EstimateText(c, Strip(system.content.text)) <= allowed {
      NeatStrips(system.content.text);
      TwoMoreCharacters(|Strip(system.content.text)|, |system.content.text|, allowed);
    } else {
      AllowedAtDefaultRate(c, allowed);
      MarkerLength();
      TrimmedCost(c, system, AllowedChars(c, allowed), SYSTEM_MARKER, IntMax(770, allowed));
    }
  }

  // ---- The budget theorem ----

  lemma {:induction false} TotalOfConcat(c: Config, a: seq<Message>, b: seq<Message>)
    ensures Total(c, a + b) == Total(c, a) + Total(c, b)
  {
    hide TokensFor;
    if a == [] {
      assert a + b == b;
    } else {
      TotalOfConcat(c, a[1..], b);
      assert (a + b)[1..] == a[1..] + b;
    }
  }

  lemma TotalOfOne(c: Config, m: Message)
    ensures Total(c, [m]) == Cost(c, m)
  {
    hide TokensFor;
    assert [m][1..] == [];
    assert Total(c, []) == 0;
  }

  /** The budget, or what the user message and the smallest kept system text cost, if that is more. */
  function Reach(c: Config, user: Message, outputTokens: int): int {
    IntMax(InputBudget(c, outputTokens), Cost(c, user) + 8 + 770)
  }

  /** A pruned prompt with some conversation costs at most 11 estimated tokens more than its budget,
      or than an oversized user message forces; when the user message leaves 770 tokens for the
      system text, prompt and output together fit the context. */
  lemma PrunedPromptFits(c: Config, systemPrompt: string, history: seq<Message>, user: Content, notes: string,
                         outputTokens: int)
    requires DefaultRates(c) && Conversation(history) != []
    ensures var pruned := Prune(c, Compose(systemPrompt, history, user, notes), outputTokens);
            var budget, cost := InputBudget(c, outputTokens), Cost(c, Message("user", user));
            && Total(c, pruned) <= Reach(c, Message("user", user), outputTokens) + 11
            && (budget - cost - 8 >= 770 ==>
                  Total(c, pruned) <= budget + 11 && Total(c, pruned) + outputTokens <= c.ctxSize)
  {
    hide TokensFor;
    var messages := Compose(systemPrompt, history, user, notes);
    var system, last := messages[0], Message("user", user);
    HeadingsOpenLabels();
    ComposedIsNeat(systemPrompt, NOTES_LABEL, notes, EXTRA_LABEL, history);
    SettledPromptFits(c, messages, system, last, outputTokens);
  }

  lemma SettledPromptFits(c: Config, messages: seq<Message>, system: Message, user: Message, outputTokens: int)
    requires DefaultRates(c) && |messages| > 2 && messages[0] == system && messages[|messages| - 1] == user
    requires system.content.Plain? && Neat(system.content.text)
    ensures Total(c, Prune(c, messages, outputTokens)) <= Reach(c, user, outputTokens) + 11
  {
    hide TokensFor;
    var budget, pruned := InputBudget(c, outputTokens), Prune(c, messages, outputTokens);
    PruneKeepsLongestSuffix(c, messages, outputTokens);
    if |pruned| == 2 {
      assert pruned == [Settle(c, system, [], user, budget)] + [] + [user];
      SettledPairFits(c, system, user, budget);
    }
  }

  lemma PairCost(c: Config, system: Message, user: Message)
    ensures Total(c, [system] + [] + [user]) == Cost(c, system) + Cost(c, user)
    ensures Total(c, [] + [user]) == Cost(c, user)
  {
    hide TokensFor;
    assert [system] + [] + [user] == [system] + [user] && [] + [user] == [user];
    TotalOfOne(c, user);
    TotalOfOne(c, system);
    TotalOfConcat(c, [system], [user]);
  }

  /** What settling does, the marker and the clipping left aside. */
  lemma SettleCases(c: Config, system: Message, user: Message, budget: int) returns (settled: Message, allowed: int)
    ensures settled == Settle(c, system, [], user, budget) && allowed == IntMax(64, budget - Cost(c, user) - 8)
    ensures settled == if Cost(c, system) + Cost(c, user) <= budget then system else TrimSystem(c, system, allowed)
  {
    hide TokensFor;
    hide TrimSystem;
    hide Total;
    allowed := IntMax(64, budget - Total(c, [] + [user]) - 8);
    PairCost(c, system, user);
    settled := if Fits(c, system, [], user, budget) then system else TrimSystem(c, system, allowed);
  }

  lemma SettledPairFits(c: Config, system: Message, user: Message, budget: int)
    requires DefaultRates(c) && system.content.Plain? && Neat(system.content.text)
    ensures Total(c, [Settle(c, system, [], user, budget)] + [] + [user])
            <= IntMax(budget, Cost(c, user) + 8 + 770) + 11
  {
    hide Cost;
    hide Settle;
    hide Total;
    hide TrimSystem;
    var settled, allowed := SettleCases(c, system, user, budget);
    PairCost(c, settled, user);
    if Cost(c, system) + Cost(c, user) > budget {
      TrimOvershoot(c, system, allowed);
      SumWithin(Cost(c, settled), Cost(c, user), budget, allowed);
    }
  }

  lemma SumWithin(system: int, user: int, budget: int, allowed: int)
    requires allowed == IntMax(64, budget - user - 8) && system <= 8 + IntMax(770, allowed) + 11
    ensures system + user <= IntMax(budget, user + 8 + 770) + 11
  {
  }
}
