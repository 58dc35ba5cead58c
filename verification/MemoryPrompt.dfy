/** The memory block of a prompt: per-slot line budgets, sections, and the overall character budget. */
module MemoryPrompt {
  import opened Strings
  import opened Tokens

  datatype KeyValue = KeyValue(key: string, value: string)
  datatype Project = Project(area: string, summary: string)
  datatype Task = Task(goal: string, step: string, doneSteps: seq<string>, blocked: string, status: string)

  datatype Bundle = Bundle(
    profile: seq<KeyValue>,
    environment: seq<KeyValue>,
    project: seq<Project>,
    task: seq<Task>,
    semantic: seq<string>)

  datatype Policy = Policy(
    includeProfile: bool,
    includeProject: bool,
    includeTask: bool,
    includeSemantic: bool,
    tokenBudget: int,
    slots: map<string, int>)

  /** The budgets of each task category; every other category is casual chat. */
  function PolicyFor(category: string): Policy {
    var defaults := map["profile" := 120, "project" := 140, "task" := 120, "semantic" := 220];
    if category == "fairy_development" then
      Policy(true, true, true, true, 480, defaults["project" := 220]["semantic" := 260])
    else if category == "coding_help" then
      Policy(true, true, true, true, 420, defaults["project" := 180]["semantic" := 240])
    else if category == "web_research" then
      Policy(true, false, true, true, 320, defaults["project" := 80]["semantic" := 180])
    else if category == "shopping" then
      Policy(true, false, true, true, 280, defaults["semantic" := 160])
    else if category == "browser_agent_task" then
      Policy(true, true, true, true, 320, defaults["task" := 180]["semantic" := 180])
    else
      Policy(true, false, true, true, 240, defaults["project" := 80]["semantic" := 140])
  }

  function Slot(policy: Policy, name: string, default: int): int {
    if name in policy.slots then policy.slots[name] else default
  }

  // ---- Lines ----

  /** The line of a profile entry; migrated entries have none. */
  function KeyValueLine(item: KeyValue): string {
    if item.key == "legacy_memory_migrated" then ""
    else if "pref_" <= item.key then item.value
    else Strip(item.key + ": " + item.value)
  }

  function ProjectLine(item: Project): string {
    Strip("[" + item.area + "] " + item.summary)
  }

  function Newest(steps: seq<string>): seq<string> {
    if |steps| > 3 then steps[|steps| - 3..] else steps
  }

  function TaskLine(item: Task): string {
    Strip("goal=" + item.goal + "; step=" + item.step + "; done=" + Join(Newest(item.doneSteps), ",")
          + "; blocked=" + item.blocked + "; status=" + item.status)
  }

  function Join(pieces: seq<string>, separator: string): string {
    if pieces == [] then ""
    else if |pieces| == 1 then pieces[0]
    else Join(pieces[..|pieces| - 1], separator) + separator + pieces[|pieces| - 1]
  }

  /** The candidate lines of a slot: an entry with an empty line is skipped. */
  function Lines<T>(items: seq<T>, line: T -> string): seq<string> {
    if items == [] then []
    else (if line(items[0]) == "" then [] else [line(items[0])]) + Lines(items[1..], line)
  }

  /** The lines taken before the first one that no longer fits; each taken line costs two more
      characters than its own. */
  function FitLines(candidates: seq<string>, remaining: int): seq<string> {
    if candidates == [] || |candidates[0]| > remaining then []
    else [candidates[0]] + FitLines(candidates[1..], remaining - (|candidates[0]| + 2))
  }

  /** What one more entry contributes, by the outcome of the two tests on its line. */
  lemma NextEntry<T>(taken: seq<string>, items: seq<T>, line: T -> string, i: nat, remaining: int)
    requires i < |items|
    ensures var text := line(items[i]);
            taken + FitLines(Lines(items[i..], line), remaining) ==
            if text == "" then taken + FitLines(Lines(items[i + 1..], line), remaining)
            else if |text| > remaining then taken
            else (taken + [text]) + FitLines(Lines(items[i + 1..], line), remaining - (|text| + 2))
  {
    var text, rest := line(items[i]), Lines(items[i + 1..], line);
    assert items[i..][0] == items[i] && items[i..][1..] == items[i + 1..];
    if text == "" {
      assert [] + rest == rest;
    } else {
      assert ([text] + rest)[1..] == rest;
    }
  }

  lemma NoMoreEntries<T>(taken: seq<string>, items: seq<T>, line: T -> string, remaining: int)
    ensures taken + FitLines(Lines(items[|items|..], line), remaining) == taken
    ensures items[0..] == items
  {
  }

  method FormatKeyValueLines(items: seq<KeyValue>, budget: int) returns (lines: seq<string>)
    ensures lines == FitLines(Lines(items, KeyValueLine), budget)
  {
    lines := [];
    var remaining := budget;
    NoMoreEntries(lines, items, KeyValueLine, remaining);
    for i := 0 to |items|
      invariant FitLines(Lines(items, KeyValueLine), budget)
             == lines + FitLines(Lines(items[i..], KeyValueLine), remaining)
    {
      NextEntry(lines, items, KeyValueLine, i, remaining);
      if items[i].key == "legacy_memory_migrated" {
        continue;
      }
      var line := KeyValueLine(items[i]);
      if line == "" {
        continue;
      }
      if |line| > remaining {
        return;
      }
      lines := lines + [line];
      remaining := remaining - (|line| + 2);
    }
    NoMoreEntries(lines, items, KeyValueLine, remaining);
  }

  method FormatProjectLines(items: seq<Project>, budget: int) returns (lines: seq<string>)
    ensures lines == FitLines(Lines(items, ProjectLine), budget)
  {
    lines := [];
    var remaining := budget;
    NoMoreEntries(lines, items, ProjectLine, remaining);
    for i := 0 to |items|
      invariant FitLines(Lines(items, ProjectLine), budget)
             == lines + FitLines(Lines(items[i..], ProjectLine), remaining)
    {
      NextEntry(lines, items, ProjectLine, i, remaining);
      var line := ProjectLine(items[i]);
      if line == "" {
        continue;
      }
      if |line| > remaining {
        return;
      }
      lines := lines + [line];
      remaining := remaining - (|line| + 2);
    }
    NoMoreEntries(lines, items, ProjectLine, remaining);
  }

  lemma TaskLineIsNeverEmpty(item: Task)
    ensures TaskLine(item) != ""
  {
    var raw := "goal=" + item.goal + "; step=" + item.step + "; done=" + Join(Newest(item.doneSteps), ",")
               + "; blocked=" + item.blocked + "; status=" + item.status;
    assert raw[0] == 'g';
    assert Ink(raw) != "";
    StripKeepsInk(raw);
  }

  method FormatTaskLines(items: seq<Task>, budget: int) returns (lines: seq<string>)
    ensures lines == FitLines(Lines(items, TaskLine), budget)
  {
    lines := [];
    var remaining := budget;
    NoMoreEntries(lines, items, TaskLine, remaining);
    for i := 0 to |items|
      invariant FitLines(Lines(items, TaskLine), budget) == lines + FitLines(Lines(items[i..], TaskLine), remaining)
    {
      NextEntry(lines, items, TaskLine, i, remaining);
      TaskLineIsNeverEmpty(items[i]);
      var line := TaskLine(items[i]);
      if |line| > remaining {
        return;
      }
      lines := lines + [line];
      remaining := remaining - (|line| + 2);
    }
    NoMoreEntries(lines, items, TaskLine, remaining);
  }

  method FormatSemanticLines(items: seq<string>, budget: int) returns (lines: seq<string>)
    ensures lines == FitLines(Lines(items, Strip), budget)
  {
    lines := [];
    var remaining := budget;
    NoMoreEntries(lines, items, Strip, remaining);
    for i := 0 to |items|
      invariant FitLines(Lines(items, Strip), budget) == lines + FitLines(Lines(items[i..], Strip), remaining)
    {
      NextEntry(lines, items, Strip, i, remaining);
      var line := Strip(items[i]);
      if line == "" {
        continue;
      }
      if |line| > remaining {
        return;
      }
      lines := lines + [line];
      remaining := remaining - (|line| + 2);
    }
    NoMoreEntries(lines, items, Strip, remaining);
  }

  // ---- Sections ----

  function Bullets(lines: seq<string>): (bullets: seq<string>)
    ensures |bullets| == |lines|
    ensures forall i :: 0 <= i < |lines| ==> bullets[i] == "- " + lines[i]
  {
    seq(|lines|, i requires 0 <= i < |lines| => "- " + lines[i])
  }

  function Headed(heading: string, lines: seq<string>): seq<string> {
    if lines == [] then [] else [heading] + Bullets(lines)
  }

  function ProfileBudget(policy: Policy): int { Slot(policy, "profile", 120) }

  function EnvironmentBudget(policy: Policy): int { IntMax(80, ProfileBudget(policy) / 2) }

  function ProfileLines(bundle: Bundle, policy: Policy): seq<string> {
    Headed("User profile:", FitLines(Lines(bundle.profile, KeyValueLine), ProfileBudget(policy)))
    + Headed("Environment:", FitLines(Lines(bundle.environment, KeyValueLine), EnvironmentBudget(policy)))
  }

  function ProfileSection(bundle: Bundle, policy: Policy): seq<string> {
    var lines := if policy.includeProfile then ProfileLines(bundle, policy) else [];
    if lines == [] then [] else [Join(lines, "\n")]
  }

  /** A section without lines is left out. */
  function Titled(title: string, lines: seq<string>): seq<string> {
    if lines == [] then [] else [title + Join(Bullets(lines), "\n")]
  }

  function ProjectSection(bundle: Bundle, policy: Policy): seq<string> {
    if !policy.includeProject then []
    else Titled("Current project context:\n",
                FitLines(Lines(bundle.project, ProjectLine), Slot(policy, "project", 140)))
  }

  function TaskSection(bundle: Bundle, policy: Policy): seq<string> {
    if !policy.includeTask then []
    else Titled("Current task state:\n", FitLines(Lines(bundle.task, TaskLine), Slot(policy, "task", 120)))
  }

  function SemanticSection(bundle: Bundle, policy: Policy): seq<string> {
    if !policy.includeSemantic then []
    else Titled("Relevant past experience:\n", FitLines(Lines(bundle.semantic, Strip), Slot(policy, "semantic", 220)))
  }

  function Sections(bundle: Bundle, policy: Policy): seq<string> {
    ProfileSection(bundle, policy) + ProjectSection(bundle, policy) + TaskSection(bundle, policy)
    + SemanticSection(bundle, policy)
  }

  const OPENING := "[Relevant memory]\n"
  const TRUNCATED := "\n...[truncated memory]"

  function CharBudget(policy: Policy): int {
    IntMax(240, (policy.tokenBudget as real * 4.2).Floor)
  }

  function Joined(bundle: Bundle, policy: Policy): string {
    OPENING + Join(Sections(bundle, policy), "\n\n")
  }

  function Truncate(text: string, budget: int, marker: string): string
    requires budget >= 240
  {
    if |text| <= budget then text else RStrip(text[..budget - 18]) + marker
  }

  function Summary(bundle: Bundle, policy: Policy): string {
    if Sections(bundle, policy) == [] then ""
    else Truncate(Joined(bundle, policy), CharBudget(policy), TRUNCATED)
  }

  method FormatProfile(bundle: Bundle, policy: Policy) returns (sections: seq<string>)
    ensures sections == ProfileSection(bundle, policy)
  {
    sections := [];
    if policy.includeProfile {
      var profileLines := FormatKeyValueLines(bundle.profile, ProfileBudget(policy));
      var environmentLines := FormatKeyValueLines(bundle.environment, EnvironmentBudget(policy));
      var sectionLines := Headed("User profile:", profileLines);
      sectionLines := sectionLines + Headed("Environment:", environmentLines);
      if sectionLines != [] {
        sections := [Join(sectionLines, "\n")];
      }
    }
  }

  method AddTitled(sections: seq<string>, title: string, lines: seq<string>) returns (longer: seq<string>)
    ensures longer == sections + Titled(title, lines)
  {
    longer := sections;
    if lines != [] {
      longer := longer + [title + Join(Bullets(lines), "\n")];
    }
  }

  method AddProject(sections: seq<string>, bundle: Bundle, policy: Policy) returns (longer: seq<string>)
    ensures longer == sections + ProjectSection(bundle, policy)
  {
    longer := sections;
    if policy.includeProject && bundle.project != [] {
      var lines := FormatProjectLines(bundle.project, Slot(policy, "project", 140));
      longer := AddTitled(longer, "Current project context:\n", lines);
    }
  }

  method AddTask(sections: seq<string>, bundle: Bundle, policy: Policy) returns (longer: seq<string>)
    ensures longer == sections + TaskSection(bundle, policy)
  {
    longer := sections;
    if policy.includeTask && bundle.task != [] {
      var lines := FormatTaskLines(bundle.task, Slot(policy, "task", 120));
      longer := AddTitled(longer, "Current task state:\n", lines);
    }
  }

  method AddSemantic(sections: seq<string>, bundle: Bundle, policy: Policy) returns (longer: seq<string>)
    ensures longer == sections + SemanticSection(bundle, policy)
  {
    longer := sections;
    if policy.includeSemantic && bundle.semantic != [] {
      var lines := FormatSemanticLines(bundle.semantic, Slot(policy, "semantic", 220));
      longer := AddTitled(longer, "Relevant past experience:\n", lines);
    }
  }

  method SummarizeMemories(bundle: Bundle, policy: Policy) returns (text: string)
    ensures text == Summary(bundle, policy)
  {
    var sections := FormatProfile(bundle, policy);
    sections := AddProject(sections, bundle, policy);
    sections := AddTask(sections, bundle, policy);
    sections := AddSemantic(sections, bundle, policy);
    assert sections == Sections(bundle, policy);
    if sections == [] {
      return "";
    }
    text := Truncate(OPENING + Join(sections, "\n\n"), CharBudget(policy), TRUNCATED);
  }
}
