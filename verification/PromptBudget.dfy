/** Composing a prompt and pruning it to the input budget. */
module PromptBudget {
  import opened Strings
  import opened Tokens

  datatype Block = TextBlock(text: string) | ImageBlock | OtherBlock(printed: string)

  /** Message content; `printed` is what `str` makes of anything that is not a string. */
  datatype Content = Plain(text: string) | Blocks(blocks: seq<Block>, printed: string) | Other(printed: string)

  datatype Message = Message(role: string, content: Content)

  datatype Config = Config(
    ctxSize: int,
    contextMargin: int,
    charsPerToken: real,
    imageCost: nat,
    maxHistory: int,
    minSystemChars: int)

  const DEFAULT_CONFIG := Config(4096, 512, 1.3, 256, 8, 1000)

  function Printed(content: Content): string {
    match content
    case Plain(text) => text
    case Blocks(_, printed) => printed
    case Other(printed) => printed
  }

  function Rate(c: Config): (rate: real)
    ensures rate >= 1.0
  {
    if c.charsPerToken < 1.0 then 1.0 else c.charsPerToken
  }

  function EstimateText(c: Config, text: string): int {
    TokensFor(|text|, Rate(c))
  }

  function EstimateBlock(c: Config, block: Block): int {
    match block
    case TextBlock(text) => EstimateText(c, text)
    case ImageBlock => c.imageCost
    case OtherBlock(printed) => EstimateText(c, printed)
  }

  function EstimateBlocks(c: Config, blocks: seq<Block>): (total: int)
    ensures total >= 0
  {
    if blocks == [] then 0 else EstimateBlock(c, blocks[0]) + EstimateBlocks(c, blocks[1..])
  }

  /** The estimate of one message, its fixed overhead included. */
  function Cost(c: Config, message: Message): (cost: int)
    ensures cost >= 8
  {
    8 + match message.content
        case Plain(text) => EstimateText(c, text)
        case Blocks(blocks, _) => EstimateBlocks(c, blocks)
        case Other(printed) => EstimateText(c, printed)
  }

  function Total(c: Config, messages: seq<Message>): (total: int)
    ensures total >= 0
  {
    if messages == [] then 0 else Cost(c, messages[0]) + Total(c, messages[1..])
  }

  function InputBudget(c: Config, outputTokens: int): int {
    IntMax(512, c.ctxSize - outputTokens - c.contextMargin)
  }

  // ---- Clipping ----

  const SYSTEM_MARKER := "\n...[truncated system context]...\n"
  const HINT_MARKER := "\n...[truncated]...\n"

  function LastChars(s: string, n: nat): string {
    if n >= |s| then s else s[|s| - n..]
  }

  /** Keeps the first `head` and the last `tail` characters around a marker. */
  function Clip(text: string, head: nat, marker: string, tail: nat): string
    requires head <= |text|
  {
    RStrip(text[..head]) + marker + LStrip(LastChars(text, tail))
  }

  function TrimSystem(c: Config, message: Message, allowed: int): Message
    requires allowed >= 64
  {
    if EstimateText(c, Strip(Printed(message.content))) <= allowed then message
    else TrimTo(message, AllowedChars(c, allowed), SYSTEM_MARKER)
  }

  /** Head and tail of a text too long for its characters, a marker in between. */
  function TrimTo(message: Message, allowedChars: nat, marker: string): Message {
    var content := Strip(Printed(message.content));
    if |content| <= allowedChars then message
    else
      var head := (allowedChars as real * 0.7).Floor;
      var tail := IntMax(180, allowedChars - head - 20);
      Message("system", Plain(Clip(content, head, marker, tail)))
  }

  function AllowedChars(c: Config, allowed: int): (chars: int)
    requires allowed >= 64
    ensures chars >= 64
  {
    assert allowed as real * Rate(c) >= 64.0 by { assert allowed as real * (Rate(c) - 1.0) >= 0.0; }
    IntMax(c.minSystemChars, (allowed as real * Rate(c)).Floor)
  }

  /** The memory hint, clipped to about `limit` characters. */
  function ClipHint(hint: string, limit: nat): string {
    ClipCleaned(Strip(hint), limit, HINT_MARKER)
  }

  function ClipCleaned(cleaned: string, limit: nat, marker: string): string {
    if cleaned == "" || |cleaned| <= limit then cleaned
    else
      var head := (limit as real * 0.6).Floor;
      var tail := IntMax(120, limit - head - 20);
      Clip(cleaned, head, marker, tail)
  }

  lemma ClipLength(text: string, head: nat, marker: string, tail: nat)
    requires head <= |text|
    ensures |Clip(text, head, marker, tail)| <= head + |marker| + tail
  {
  }

  // ---- Pruning ----

  function Recent(history: seq<Message>, maxHistory: int): seq<Message> {
    if maxHistory > 0 && |history| > maxHistory then history[|history| - maxHistory..] else history
  }

  predicate Fits(c: Config, system: Message, history: seq<Message>, user: Message, budget: int) {
    Total(c, [system] + history + [user]) <= budget
  }

  /** Dropping the oldest message until the rest fits. */
  function DropOldest(c: Config, system: Message, history: seq<Message>, user: Message, budget: int): seq<Message> {
    if history != [] && !Fits(c, system, history, user, budget)
    then DropOldest(c, system, history[1..], user, budget) else history
  }

  /** What the system message is trimmed to when no more history can be dropped. */
  function Settle(c: Config, system: Message, history: seq<Message>, user: Message, budget: int): Message {
    if Fits(c, system, history, user, budget) then system
    else TrimSystem(c, system, IntMax(64, budget - Total(c, history + [user]) - 8))
  }

  function Prune(c: Config, messages: seq<Message>, outputTokens: int): seq<Message> {
    if |messages| <= 2 then messages
    else
      var n, budget := |messages|, InputBudget(c, outputTokens);
      var system, user := messages[0], messages[n - 1];
      var history := DropOldest(c, system, Recent(messages[1..n - 1], c.maxHistory), user, budget);
      [Settle(c, system, history, user, budget)] + history + [user]
  }

  method PruneMessages(c: Config, messages: seq<Message>, outputTokens: int) returns (candidate: seq<Message>)
    ensures candidate == Prune(c, messages, outputTokens)
  {
    if |messages| <= 2 {
      return messages;
    }
    var budget := InputBudget(c, outputTokens);
    var system := messages[0];
    var user := messages[|messages| - 1];
    var history := messages[1..|messages| - 1];
    if c.maxHistory > 0 && |history| > c.maxHistory {
      history := history[|history| - c.maxHistory..];
    }
    history := PopUntilFits(c, system, history, user, budget);
    system := Settle(c, system, history, user, budget);
    candidate := [system] + history + [user];
  }

  method PopUntilFits(c: Config, system: Message, messages: seq<Message>, user: Message, budget: int)
    returns (history: seq<Message>)
    ensures history == DropOldest(c, system, messages, user, budget)
  {
    history := messages;
    var candidate := [system] + history + [user];
    while history != [] && Total(c, candidate) > budget
      invariant candidate == [system] + history + [user]
      invariant DropOldest(c, system, history, user, budget) == DropOldest(c, system, messages, user, budget)
      decreases |history|
    {
      history := history[1..];
      candidate := [system] + history + [user];
    }
  }

  // ---- What pruning keeps ----

  /** The kept history is the longest suffix that fits: every longer one does not. */
  lemma {:induction false} DropOldestKeepsLongestFit(c: Config, system: Message, history: seq<Message>, user: Message,
                                                     budget: int)
    ensures var kept := DropOldest(c, system, history, user, budget);
            && |kept| <= |history| && kept == history[|history| - |kept|..]
            && (kept != [] ==> Fits(c, system, kept, user, budget))
            && (forall i :: 0 <= i < |history| - |kept| ==> !Fits(c, system, history[i..], user, budget))
  {
    var kept := DropOldest(c, system, history, user, budget);
    if history != [] && !Fits(c, system, history, user, budget) {
      DropOldestKeepsLongestFit(c, system, history[1..], user, budget);
      assert history[1..][|history| - 1 - |kept|..] == history[|history| - |kept|..];
      forall i | 0 <= i < |history| - |kept| ensures !Fits(c, system, history[i..], user, budget) {
        if i == 0 {
          assert history[0..] == history;
        } else {
          assert history[1..][i - 1..] == history[i..];
        }
      }
    }
  }

  /** Pruning keeps the system message first and the user message last, and between them the longest
      recent suffix of the history that fits; the system text is touched only when no history is left. */
  lemma PruneKeepsLongestSuffix(c: Config, messages: seq<Message>, outputTokens: int)
    requires |messages| > 2
    ensures var result := Prune(c, messages, outputTokens);
            var budget := InputBudget(c, outputTokens);
            var system, user := messages[0], messages[|messages| - 1];
            var recent := Recent(messages[1..|messages| - 1], c.maxHistory);
            var k := |result| - 2;
            && 0 <= k <= |recent| && result[|result| - 1] == user
            && result[1..|result| - 1] == recent[|recent| - k..]
            && (forall i :: 0 <= i < |recent| - k ==> !Fits(c, system, recent[i..], user, budget))
            && (result[0] != system ==> k == 0 && !Fits(c, system, [], user, budget))
            && (k > 0 ==> Total(c, result) <= budget)
  {
    var budget := InputBudget(c, outputTokens);
    var system, user := messages[0], messages[|messages| - 1];
    var recent := Recent(messages[1..|messages| - 1], c.maxHistory);
    DropOldestKeepsLongestFit(c, system, recent, user, budget);
    var kept := DropOldest(c, system, recent, user, budget);
    var result := Prune(c, messages, outputTokens);
    assert result[1..|result| - 1] == kept;
  }

  /** Pruning an already pruned prompt changes nothing. */
  lemma PruneIsIdempotent(c: Config, messages: seq<Message>, outputTokens: int)
    ensures Prune(c, Prune(c, messages, outputTokens), outputTokens) == Prune(c, messages, outputTokens)
  {
    var once := Prune(c, messages, outputTokens);
    if |messages| > 2 && |once| > 2 {
      PruneKeepsLongestSuffix(c, messages, outputTokens);
      var kept := once[1..|once| - 1];
      assert once == [once[0]] + kept + [once[|once| - 1]];
      assert Recent(kept, c.maxHistory) == kept;
    }
  }
}
