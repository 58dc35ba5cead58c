/** Why the memory block fits its character budget. */
module MemoryPromptBounds {
  import opened Strings
  import opened Tokens
  import opened MemoryPrompt

  /** What taken lines cost a slot: two characters more than each line. */
  function Used(lines: seq<string>): nat {
    if lines == [] then 0 else |lines[0]| + 2 + Used(lines[1..])
  }

  /** The length of lines joined by a one-character separator, plus one. */
  function Span(lines: seq<string>): nat {
    if lines == [] then 0 else |lines[0]| + 1 + Span(lines[1..])
  }

  lemma UsedCons(first: string, rest: seq<string>)
    ensures Used([first] + rest) == |first| + 2 + Used(rest)
  {
    assert ([first] + rest)[1..] == rest;
  }

  /** The taken lines are the longest prefix of the candidates that the slot budget pays for. */
  lemma {:induction false} FitLinesTakesAPrefix(candidates: seq<string>, budget: int)
    ensures var taken := FitLines(candidates, budget);
            && |taken| <= |candidates| && taken == candidates[..|taken|]
            && (taken != [] ==> Used(taken) <= budget + 2)
            && (|taken| < |candidates| ==> |candidates[|taken|]| > budget - Used(taken))
    decreases |candidates|
  {
    if candidates != [] && |candidates[0]| <= budget {
      var first, rest := candidates[0], candidates[1..];
      FitLinesTakesAPrefix(rest, budget - (|first| + 2));
      var taken := FitLines(rest, budget - (|first| + 2));
      UsedCons(first, taken);
      assert candidates == [first] + rest && FitLines(candidates, budget) == [first] + taken;
    }
  }

  lemma {:induction false} LinesAreNotEmpty<T>(items: seq<T>, line: T -> string)
    ensures "" !in Lines(items, line)
  {
    if items != [] {
      LinesAreNotEmpty(items[1..], line);
    }
  }

  lemma {:induction false} BulletsSpan(lines: seq<string>)
    requires "" !in lines
    ensures Span(Bullets(lines)) == Used(lines) + |lines| && 3 * |lines| <= Used(lines)
  {
    if lines != [] {
      assert "" !in lines[1..];
      BulletsSpan(lines[1..]);
      assert Bullets(lines)[1..] == Bullets(lines[1..]);
    }
  }

  lemma {:induction false} SpanOfConcat(a: seq<string>, b: seq<string>)
    ensures Span(a + b) == Span(a) + Span(b)
  {
    if a == [] {
      assert a + b == b;
    } else {
      SpanOfConcat(a[1..], b);
      assert (a + b)[1..] == a[1..] + b;
    }
  }

  lemma {:induction false} JoinLength(pieces: seq<string>, separator: string)
    requires |separator| >= 1
    ensures |Join(pieces, separator)| <= Span(pieces) + |pieces| * (|separator| - 1)
    ensures |separator| == 1 && pieces != [] ==> |Join(pieces, separator)| == Span(pieces) - 1
  {
    if |pieces| == 1 {
      assert pieces[1..] == [];
    } else if pieces != [] {
      var n := |pieces|;
      var front, last := pieces[..n - 1], pieces[n - 1];
      JoinLength(front, separator);
      assert pieces == front + [last] && [last][1..] == [];
      SpanOfConcat(front, [last]);
      assert n * (|separator| - 1) == (n - 1) * (|separator| - 1) + (|separator| - 1);
    }
  }

  /** Three times the span of the bulleted lines of a slot is at most four times what it may use. */
  lemma SlotSpan<T>(items: seq<T>, line: T -> string, budget: int)
    ensures 3 * Span(Bullets(FitLines(Lines(items, line), budget))) <= 4 * (IntMax(0, budget) + 2)
  {
    var candidates := Lines(items, line);
    var taken := FitLines(candidates, budget);
    FitLinesTakesAPrefix(candidates, budget);
    LinesAreNotEmpty(items, line);
    assert forall i :: 0 <= i < |taken| ==> taken[i] == candidates[i];
    BulletsSpan(taken);
  }

  lemma TitledSpan<T>(title: string, items: seq<T>, line: T -> string, budget: int)
    ensures 3 * Span(Titled(title, FitLines(Lines(items, line), budget)))
            <= 3 * |title| + 4 * (IntMax(0, budget) + 2)
    ensures |Titled(title, FitLines(Lines(items, line), budget))| <= 1
  {
    var taken := FitLines(Lines(items, line), budget);
    SlotSpan(items, line, budget);
    if taken != [] {
      JoinLength(Bullets(taken), "\n");
      SpanOfOne(title + Join(Bullets(taken), "\n"));
    }
  }

  lemma SpanOfOne(piece: string)
    ensures Span([piece]) == |piece| + 1
  {
    assert [piece][1..] == [];
  }

  lemma HeadedSpan<T>(heading: string, items: seq<T>, line: T -> string, budget: int)
    ensures 3 * Span(Headed(heading, FitLines(Lines(items, line), budget)))
            <= 3 * (|heading| + 1) + 4 * (IntMax(0, budget) + 2)
  {
    var taken := FitLines(Lines(items, line), budget);
    SlotSpan(items, line, budget);
    if taken != [] {
      SpanOfConcat([heading], Bullets(taken));
      SpanOfOne(heading);
    }
  }

  /** Three times the most a slot with this budget can add, its title of `title` characters included. */
  function SlotBound(title: int, budget: int): int {
    3 * title + 4 * (IntMax(0, budget) + 2)
  }

  /** Three times the most the joined memory block can measure under a policy. */
  function BlockBound(policy: Policy): int {
    3 * 18
    + (if policy.includeProfile
       then SlotBound(13 + 1, ProfileBudget(policy)) + SlotBound(12 + 1, EnvironmentBudget(policy)) + 3 else 0)
    + (if policy.includeProject then SlotBound(25 + 1, Slot(policy, "project", 140)) else 0)
    + (if policy.includeTask then SlotBound(20 + 1, Slot(policy, "task", 120)) else 0)
    + (if policy.includeSemantic then SlotBound(26 + 1, Slot(policy, "semantic", 220)) else 0)
  }

  lemma ProfileSpan(bundle: Bundle, policy: Policy)
    ensures |ProfileSection(bundle, policy)| <= 1
    ensures 3 * (Span(ProfileSection(bundle, policy)) + |ProfileSection(bundle, policy)|)
      <= if policy.includeProfile
         then SlotBound(14, ProfileBudget(policy)) + SlotBound(13, EnvironmentBudget(policy)) + 3 else 0
  {
    if policy.includeProfile {
      var lines := ProfileLines(bundle, policy);
      HeadedSpan("User profile:", bundle.profile, KeyValueLine, ProfileBudget(policy));
      HeadedSpan("Environment:", bundle.environment, KeyValueLine, EnvironmentBudget(policy));
      SpanOfConcat(Headed("User profile:", FitLines(Lines(bundle.profile, KeyValueLine), ProfileBudget(policy))),
                   Headed("Environment:",
                          FitLines(Lines(bundle.environment, KeyValueLine), EnvironmentBudget(policy))));
      if lines != [] {
        JoinLength(lines, "\n");
        SpanOfOne(Join(lines, "\n"));
      }
    }
  }

  lemma OtherSpans(bundle: Bundle, policy: Policy)
    ensures |ProjectSection(bundle, policy)| <= 1 && |TaskSection(bundle, policy)| <= 1
    ensures |SemanticSection(bundle, policy)| <= 1
    ensures 3 * (Span(ProjectSection(bundle, policy)) + |ProjectSection(bundle, policy)|)
      <= if policy.includeProject then SlotBound(26, Slot(policy, "project", 140)) else 0
    ensures 3 * (Span(TaskSection(bundle, policy)) + |TaskSection(bundle, policy)|)
      <= if policy.includeTask then SlotBound(21, Slot(policy, "task", 120)) else 0
    ensures 3 * (Span(SemanticSection(bundle, policy)) + |SemanticSection(bundle, policy)|)
      <= if policy.includeSemantic then SlotBound(27, Slot(policy, "semantic", 220)) else 0
  {
    TitledSpan("Current project context:\n", bundle.project, ProjectLine, Slot(policy, "project", 140));
    TitledSpan("Current task state:\n", bundle.task, TaskLine, Slot(policy, "task", 120));
    TitledSpan("Relevant past experience:\n", bundle.semantic, Strip, Slot(policy, "semantic", 220));
  }

  /** Under any policy the joined block measures at most `BlockBound / 3` characters. */
  lemma JoinedIsBounded(bundle: Bundle, policy: Policy)
    ensures 3 * |Joined(bundle, policy)| <= BlockBound(policy)
  {
    ProfileSpan(bundle, policy);
    OtherSpans(bundle, policy);
    var a, b := ProfileSection(bundle, policy), ProjectSection(bundle, policy);
    var c, d := TaskSection(bundle, policy), SemanticSection(bundle, policy);
    SpanOfConcat(a + b + c, d);
    SpanOfConcat(a + b, c);
    SpanOfConcat(a, b);
    JoinLength(Sections(bundle, policy), "\n\n");
    assert |OPENING| == 18;
  }

  lemma KnownPoliciesHaveRoom(category: string)
    ensures BlockBound(PolicyFor(category)) <= 3 * CharBudget(PolicyFor(category))
  {
    assert "profile"[3] != "project"[3];
  }

  /** For every bundle and every task category the block is returned whole: truncation never happens. */
  lemma TruncationIsUnreachable(bundle: Bundle, category: string)
    ensures var policy := PolicyFor(category);
            && |Joined(bundle, policy)| <= CharBudget(policy)
            && Summary(bundle, policy) == (if Sections(bundle, policy) == [] then "" else Joined(bundle, policy))
  {
    JoinedIsBounded(bundle, PolicyFor(category));
    KnownPoliciesHaveRoom(category);
  }

  lemma TruncatedLength(text: string, budget: int, marker: string)
    requires budget >= 240 && |marker| == 22
    ensures |Truncate(text, budget, marker)| <= budget + 4
  {
  }

  /** For an arbitrary policy the truncated block can exceed the budget, but by at most 4 characters. */
  lemma SummaryIsBounded(bundle: Bundle, policy: Policy)
    ensures |Summary(bundle, policy)| <= CharBudget(policy) + 4
  {
    assert |TRUNCATED| == 22;
    TruncatedLength(Joined(bundle, policy), CharBudget(policy), TRUNCATED);
  }

  /** A truncated block exceeds its budget exactly when not all of the last four kept characters are
      whitespace, and by all 4 characters exactly when the last of them is not. */
  lemma TruncationOvershoots(text: string, budget: int, marker: string)
    requires budget >= 240 && |marker| == 22 && |text| > budget
    ensures |Truncate(text, budget, marker)| > budget
            <==> exists i :: budget - 22 <= i < budget - 18 && !IsSpace(text[i])
    ensures |Truncate(text, budget, marker)| == budget + 4 <==> !IsSpace(text[budget - 19])
  {
    var kept := text[..budget - 18];
    assert kept[|kept| - 1] == text[budget - 19];
    RStripLength(kept, 4);
    RStripLength(kept, 1);
    assert forall i :: budget - 22 <= i < budget - 18 ==> kept[i] == text[i];
  }

  /** Stripping leaves more than all but the last `n` characters exactly when one of those shows. */
  lemma {:induction false} RStripLength(s: string, n: nat)
    requires n <= |s|
    ensures |RStrip(s)| > |s| - n <==> exists i :: |s| - n <= i < |s| && !IsSpace(s[i])
  {
    if n > 0 {
      if IsSpace(s[|s| - 1]) {
        var front := s[..|s| - 1];
        RStripLength(front, n - 1);
        assert forall i :: 0 <= i < |front| ==> front[i] == s[i];
      } else {
        RStripFixed(s);
      }
    }
  }

  // ---- The bound is reached ----

  lemma OneLine<T>(items: seq<T>, line: T -> string, text: string, budget: int)
    requires |items| == 1 && line(items[0]) == text && 0 < |text| <= budget
    ensures FitLines(Lines(items, line), budget) == [text]
  {
    assert Lines(items, line) == [text] by {
      assert items[1..] == [] && Lines(items[1..], line) == [];
      assert [text] + [] == [text];
    }
    assert FitLines([text][1..], budget - (|text| + 2)) == [] by { assert [text][1..] == []; }
  }

  lemma OneBullet(title: string, text: string)
    ensures Titled(title, [text]) == [title + ("- " + text)]
  {
    assert Bullets([text]) == ["- " + text];
  }

  /** With nothing but semantic memories included, theirs is the only section. */
  lemma OnlySemantic(bundle: Bundle, policy: Policy, piece: string)
    requires !policy.includeProfile && !policy.includeProject && !policy.includeTask
    requires SemanticSection(bundle, policy) == [piece]
    ensures Sections(bundle, policy) == [piece] && Joined(bundle, policy) == OPENING + piece
  {
    assert [] + [] + [] + [piece] == [piece];
  }

  lemma LateCharacter(opening: string, title: string, line: string)
    requires |opening| == 18 && |title| == 26 && |line| == 300
    ensures |opening + (title + ("- " + line))| == 346 && (opening + (title + ("- " + line)))[221] == line[175]
  {
    assert ("- " + line)[177] == line[175];
    assert (title + ("- " + line))[203] == line[175];
  }

  lemma LongBlock(bundle: Bundle, policy: Policy, block: string)
    requires policy.tokenBudget == 0 && Sections(bundle, policy) != [] && Joined(bundle, policy) == block
    requires |block| == 346 && !IsSpace(block[221]) && |TRUNCATED| == 22
    ensures |Summary(bundle, policy)| == CharBudget(policy) + 4
  {
    assert CharBudget(policy) == 240;
    TruncationOvershoots(block, 240, TRUNCATED);
  }

  lemma LiteralLengths()
    ensures |OPENING| == 18 && |TRUNCATED| == 22
  {
  }

  lemma SemanticBlockIsLong(bundle: Bundle, policy: Policy, title: string, line: string)
    requires |line| == 300 && !IsSpace(line[175])
    requires |title| == 26 && policy.tokenBudget == 0
    requires !policy.includeProfile && !policy.includeProject && !policy.includeTask
    requires SemanticSection(bundle, policy) == Titled(title, [line])
    ensures |Summary(bundle, policy)| == CharBudget(policy) + 4
  {
    OneBullet(title, line);
    OnlySemantic(bundle, policy, title + ("- " + line));
    LiteralLengths();
    LateCharacter(OPENING, title, line);
    LongBlock(bundle, policy, OPENING + (title + ("- " + line)));
  }

  /** A slot with room for its only memory takes it. */
  lemma OneMemory(items: seq<string>, text: string, budget: int)
    requires |items| == 1 && items[0] == text && Strip(text) == text && 0 < |text| <= budget
    ensures FitLines(Lines(items, Strip), budget) == [text]
  {
    OneLine(items, Strip, text, budget);
  }

  lemma SemanticSectionOf(bundle: Bundle, policy: Policy, budget: int) returns (title: string)
    requires policy.includeSemantic && Slot(policy, "semantic", 220) == budget
    ensures |title| == 26
    ensures SemanticSection(bundle, policy) == Titled(title, FitLines(Lines(bundle.semantic, Strip), budget))
  {
    title := "Relevant past experience:\n";
  }

  /** A slot that takes one line of 300 characters gives a block over its budget by all of those 4. */
  lemma LongSlotOvershoots(bundle: Bundle, policy: Policy, line: string)
    requires policy.includeSemantic && !policy.includeProfile && !policy.includeProject && !policy.includeTask
    requires policy.tokenBudget == 0
    requires FitLines(Lines(bundle.semantic, Strip), Slot(policy, "semantic", 220)) == [line]
    requires |line| == 300 && !IsSpace(line[175])
    ensures |Summary(bundle, policy)| == CharBudget(policy) + 4
  {
    var title := SemanticSectionOf(bundle, policy, Slot(policy, "semantic", 220));
    SemanticBlockIsLong(bundle, policy, title, line);
  }

  lemma LongLineFits(line: string)
    requires line == seq(300, _ => 'a')
    ensures FitLines(Lines([line], Strip), 300) == [line]
  {
    LStripFixed(line);
    RStripFixed(line);
    OneMemory([line], line, 300);
  }

  /** One memory of 300 letters under a policy that gives its slot 300 characters and the block none. */
  lemma LongMemoryFillsItsSlot() returns (bundle: Bundle, policy: Policy, line: string)
    ensures bundle == Bundle([], [], [], [], [line]) && line == seq(300, _ => 'a')
    ensures policy == Policy(false, false, false, true, 0, map["semantic" := 300])
    ensures FitLines(Lines(bundle.semantic, Strip), Slot(policy, "semantic", 220)) == [line]
  {
    line := seq(300, _ => 'a');
    bundle := Bundle([], [], [], [], [line]);
    policy := Policy(false, false, false, true, 0, map["semantic" := 300]);
    LongLineFits(line);
  }

  /** So a block over its budget by 4 characters does occur, if only under such a policy. */
  lemma BudgetIsExceeded() returns (bundle: Bundle, policy: Policy)
    ensures bundle == Bundle([], [], [], [], [seq(300, _ => 'a')])
    ensures policy == Policy(false, false, false, true, 0, map["semantic" := 300])
    ensures |Summary(bundle, policy)| == CharBudget(policy) + 4
  {
    var line: string;
    bundle, policy, line := LongMemoryFillsItsSlot();
    LongSlotOvershoots(bundle, policy, line);
  }
}
