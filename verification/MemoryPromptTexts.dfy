/** What is written in the memory block: which text each line carries, and in which order. */
module MemoryPromptTexts {
  import opened Strings
  import opened MemoryPrompt

  // ---- Lines ----

  lemma {:induction false} RStripAfter(front: string, back: string)
    requires front != "" && !IsSpace(front[|front| - 1])
    ensures RStrip(front + back) == front + RStrip(back)
  {
    if back == "" {
      assert front + back == front;
    } else if IsSpace(back[|back| - 1]) {
      var shorter := back[..|back| - 1];
      RStripAfter(front, shorter);
      assert (front + back)[..|front + back| - 1] == front + shorter;
    }
  }

  lemma {:induction false} LStripFrom(s: string, k: nat)
    requires k < |s| && !IsSpace(s[k])
    requires forall i :: 0 <= i < k ==> IsSpace(s[i])
    ensures LStrip(s) == s[k..]
  {
    if k > 0 {
      var rest := s[1..];
      assert forall i :: 0 <= i < |rest| ==> rest[i] == s[i + 1];
      LStripFrom(rest, k - 1);
      assert rest[k - 1..] == s[k..];
    }
  }

  lemma LStripBefore(front: string, back: string)
    requires back != "" && !IsSpace(back[0])
    ensures LStrip(front + back) == LStrip(front) + back
  {
    hide LStrip;
    hide IsSpace;
    var whole, k := front + back, |front| - |LStrip(front)|;
    LStripDropsSpace(front);
    assert whole[k] == if k < |front| then front[k] else back[0];
    assert forall i :: 0 <= i < k ==> whole[i] == front[i];
    LStripFrom(whole, k);
    assert whole[k..] == front[k..] + back;
  }

  /** Around a character that shows, stripping leaves the inside alone. */
  lemma StripAround(front: string, middle: string, back: string)
    requires middle != "" && !IsSpace(middle[0]) && !IsSpace(middle[|middle| - 1])
    ensures Strip(front + middle + back) == LStrip(front) + middle + RStrip(back)
  {
    hide LStrip;
    hide RStrip;
    hide IsSpace;
    var tail := middle + back;
    assert tail[0] == middle[0];
    LStripBefore(front, tail);
    assert front + middle + back == front + tail;
    StripEnd(LStrip(front), middle, back);
  }

  lemma StripEnd(start: string, middle: string, back: string)
    requires middle != "" && !IsSpace(middle[|middle| - 1])
    ensures RStrip(start + (middle + back)) == start + middle + RStrip(back)
  {
    hide RStrip;
    hide IsSpace;
    var inside := start + middle;
    assert inside[|inside| - 1] == middle[|middle| - 1];
    RStripAfter(inside, back);
    assert start + (middle + back) == inside + back;
  }

  /** A preference is written as its value, untouched; any other entry that was not migrated as key, colon and
      value, without the whitespace at either end. */
  lemma EntryReads(item: KeyValue)
    ensures item.key == "legacy_memory_migrated" ==> KeyValueLine(item) == ""
    ensures "pref_" <= item.key ==> KeyValueLine(item) == item.value
    ensures item.key != "legacy_memory_migrated" && !("pref_" <= item.key) ==>
      KeyValueLine(item) == LStrip(item.key) + ":" + RStrip(" " + item.value)
  {
    hide Strip;
    hide LStrip;
    hide RStrip;
    StripAround(item.key, ":", " " + item.value);
    assert ": " == ":" + " ";
    assert item.key + (":" + " ") + item.value == item.key + ":" + (" " + item.value);
    if "pref_" <= item.key {
      assert item.key[0] == 'p' && "legacy_memory_migrated"[0] == 'l';
    }
  }

  /** A project is written as its area in brackets and its summary. */
  lemma ProjectReads(item: Project)
    ensures ProjectLine(item) == "[" + item.area + "]" + RStrip(" " + item.summary)
  {
    hide Strip;
    hide RStrip;
    var middle := "[" + item.area + "]";
    StripAround("", middle, " " + item.summary);
    assert LStrip("") + middle == middle && "" + middle == middle;
    assert "[" + item.area + "] " == middle + " ";
    assert middle + " " + item.summary == middle + (" " + item.summary);
  }

  /** A task with these done steps, written out. */
  ghost predicate TaskReads(item: Task, done: string) {
    TaskLine(item) == "goal=" + item.goal + "; step=" + item.step + "; done=" + done
                      + "; blocked=" + item.blocked + "; status=" + RStrip(item.status)
  }

  /** A task is written with its five entries in order; only the status can lose whitespace, at its end. Of the
      done steps the last three are named. */
  lemma TaskEntriesInOrder(item: Task, older: seq<string>, a: string, b: string, c: string)
    ensures item.doneSteps == [] ==> TaskReads(item, "")
    ensures item.doneSteps == [a] ==> TaskReads(item, a)
    ensures item.doneSteps == [a, b] ==> TaskReads(item, a + "," + b)
    ensures item.doneSteps == older + [a, b, c] ==> TaskReads(item, a + "," + b + "," + c)
  {
    TaskStrips(item);
    JoinThree(a, b, c, ",");
    if item.doneSteps == older + [a, b, c] {
      assert Newest(item.doneSteps) == [a, b, c];
    }
  }

  lemma TaskStrips(item: Task)
    ensures TaskReads(item, Join(Newest(item.doneSteps), ","))
  {
    hide Join;
    hide Newest;
    var done := Join(Newest(item.doneSteps), ",");
    var middle := "goal=" + item.goal + "; step=" + item.step + "; done=" + done + "; blocked=" + item.blocked
                  + "; status=";
    StripAround("", middle, item.status);
    assert LStrip("") + middle == middle && "" + middle == middle;
  }

  lemma JoinThree(a: string, b: string, c: string, separator: string)
    ensures Join([], separator) == "" && Join([a], separator) == a
    ensures Join([a, b], separator) == a + separator + b
    ensures Join([a, b, c], separator) == a + separator + b + separator + c
  {
    assert [a, b][..1] == [a] && [a, b, c][..2] == [a, b];
  }

  /** The candidate lines are those of the entries, in their order, without the empty ones. */
  lemma {:induction false} LinesInOrder<T>(earlier: seq<T>, item: T, line: T -> string)
    ensures Lines(earlier + [item], line) == Lines(earlier, line) + if line(item) == "" then [] else [line(item)]
  {
    if earlier == [] {
      assert [] + [item] == [item] && [item][1..] == [];
      assert Lines([item], line) == (if line(item) == "" then [] else [line(item)]) + Lines([], line);
    } else {
      LinesInOrder(earlier[1..], item, line);
      assert (earlier + [item])[1..] == earlier[1..] + [item];
    }
  }

  // ---- The block ----

  /** Pieces with the separator before each of them. */
  function Led(pieces: seq<string>, separator: string): string {
    if pieces == [] then "" else separator + pieces[0] + Led(pieces[1..], separator)
  }

  lemma LedOfNone(separator: string)
    ensures Led([], separator) == ""
  {
  }

  lemma LedCons(first: string, rest: seq<string>, separator: string)
    ensures Led([first] + rest, separator) == separator + first + Led(rest, separator)
  {
    assert ([first] + rest)[1..] == rest;
  }

  lemma {:induction false} LedOfConcat(a: seq<string>, b: seq<string>, separator: string)
    ensures Led(a + b, separator) == Led(a, separator) + Led(b, separator)
  {
    hide Led;
    if a == [] {
      assert a + b == b;
      LedOfNone(separator);
    } else {
      var first, rest := a[0], a[1..];
      LedOfConcat(rest, b, separator);
      LedCons(first, rest, separator);
      LedCons(first, rest + b, separator);
      assert a == [first] + rest && a + b == [first] + (rest + b);
      assert separator + first + (Led(rest, separator) + Led(b, separator))
          == separator + first + Led(rest, separator) + Led(b, separator);
    }
  }

  lemma LedOfOne(piece: string, separator: string)
    ensures Led([piece], separator) == separator + piece
  {
    assert [piece][1..] == [];
    assert Led([], separator) == "";
  }

  lemma {:induction false} JoinIsLed(pieces: seq<string>, separator: string)
    ensures pieces != [] ==> separator + Join(pieces, separator) == Led(pieces, separator)
  {
    hide Led;
    if |pieces| == 1 {
      LedOfOne(pieces[0], separator);
      assert pieces == [pieces[0]];
    } else if pieces != [] {
      var front, last := pieces[..|pieces| - 1], pieces[|pieces| - 1];
      JoinIsLed(front, separator);
      LedOfConcat(front, [last], separator);
      LedOfOne(last, separator);
      assert pieces == front + [last];
    }
  }

  /** Lines as a list of bullets, one below the other. */
  function Listing(lines: seq<string>): string {
    if lines == [] then "" else "\n- " + lines[0] + Listing(lines[1..])
  }

  lemma {:induction false} LedBullets(lines: seq<string>)
    ensures Led(Bullets(lines), "\n") == Listing(lines)
  {
    if lines != [] {
      LedBullets(lines[1..]);
      assert Bullets(lines)[1..] == Bullets(lines[1..]);
    }
  }

  /** A heading over its bullets; nothing at all without lines. */
  function Part(lead: string, heading: string, lines: seq<string>): string {
    if lines == [] then "" else lead + heading + Listing(lines)
  }

  lemma TitledReads(title: string, heading: string, lines: seq<string>)
    requires title == heading + "\n"
    ensures Led(Titled(title, lines), "\n\n") == Part("\n\n", heading, lines)
  {
    if lines != [] {
      JoinIsLed(Bullets(lines), "\n");
      LedBullets(lines);
      LedOfOne(title + Join(Bullets(lines), "\n"), "\n\n");
    }
  }

  lemma HeadedReads(heading: string, lines: seq<string>)
    ensures Led(Headed(heading, lines), "\n") == Part("\n", heading, lines)
  {
    if lines != [] {
      LedOfConcat([heading], Bullets(lines), "\n");
      LedOfOne(heading, "\n");
      LedBullets(lines);
    }
  }

  /** What a section takes of its memories, if the policy includes it. */
  function Taken<T>(included: bool, items: seq<T>, line: T -> string, budget: int): seq<string> {
    if included then FitLines(Lines(items, line), budget) else []
  }

  lemma LeadSplits(heading: string, lines: seq<string>)
    ensures Part("\n\n", heading, lines) == if lines == [] then "" else "\n" + Part("\n", heading, lines)
    ensures lines == [] ==> Part("\n", heading, lines) == ""
    ensures Headed(heading, lines) == [] <==> lines == []
  {
    assert "\n\n" == "\n" + "\n";
    assert "\n" + "\n" + heading + Listing(lines) == "\n" + ("\n" + heading + Listing(lines));
  }

  lemma TwoHeadings(first: string, a: seq<string>, second: string, b: seq<string>)
    requires Headed(first, a) + Headed(second, b) != []
    ensures "\n\n" + Join(Headed(first, a) + Headed(second, b), "\n")
         == Part("\n\n", first, a) + Part(if a == [] then "\n\n" else "\n", second, b)
  {
    hide Part;
    hide Headed;
    hide Led;
    hide Join;
    var lines := Headed(first, a) + Headed(second, b);
    var p, q := Part("\n", first, a), Part("\n", second, b);
    HeadedReads(first, a);
    HeadedReads(second, b);
    LedOfConcat(Headed(first, a), Headed(second, b), "\n");
    JoinIsLed(lines, "\n");
    LeadSplits(first, a);
    LeadSplits(second, b);
    assert "\n" + Join(lines, "\n") == p + q;
    assert "\n\n" + Join(lines, "\n") == "\n" + ("\n" + Join(lines, "\n"));
    if a == [] {
      assert "" + q == q && "" + ("\n" + q) == "\n" + q;
    } else {
      assert "\n" + (p + q) == ("\n" + p) + q;
    }
  }

  /** Profile and environment share a section: one newline stands between them, two before the first. */
  lemma ProfileReads(bundle: Bundle, policy: Policy)
    ensures var profile := Taken(policy.includeProfile, bundle.profile, KeyValueLine, ProfileBudget(policy));
            var environment :=
              Taken(policy.includeProfile, bundle.environment, KeyValueLine, EnvironmentBudget(policy));
            Led(ProfileSection(bundle, policy), "\n\n")
            == Part("\n\n", "User profile:", profile)
               + Part(if profile == [] then "\n\n" else "\n", "Environment:", environment)
  {
    hide FitLines;
    hide Lines;
    hide ProfileBudget;
    hide EnvironmentBudget;
    LeadSplits("User profile:", FitLines(Lines(bundle.profile, KeyValueLine), ProfileBudget(policy)));
    if policy.includeProfile && ProfileLines(bundle, policy) != [] {
      TwoHeadings("User profile:", FitLines(Lines(bundle.profile, KeyValueLine), ProfileBudget(policy)),
                  "Environment:", FitLines(Lines(bundle.environment, KeyValueLine), EnvironmentBudget(policy)));
      LedOfOne(Join(ProfileLines(bundle, policy), "\n"), "\n\n");
    }
  }

  /** The block below its opening: the profile, the environment, the project, the task and the experience, each
      only if it has lines, as bullets under its heading. */
  function Body(bundle: Bundle, policy: Policy): string {
    var profile := Taken(policy.includeProfile, bundle.profile, KeyValueLine, ProfileBudget(policy));
    var environment := Taken(policy.includeProfile, bundle.environment, KeyValueLine, EnvironmentBudget(policy));
    var project := Taken(policy.includeProject, bundle.project, ProjectLine, Slot(policy, "project", 140));
    var task := Taken(policy.includeTask, bundle.task, TaskLine, Slot(policy, "task", 120));
    var semantic := Taken(policy.includeSemantic, bundle.semantic, Strip, Slot(policy, "semantic", 220));
    Part("\n\n", "User profile:", profile) + Part(if profile == [] then "\n\n" else "\n", "Environment:", environment)
    + Part("\n\n", "Current project context:", project) + Part("\n\n", "Current task state:", task)
    + Part("\n\n", "Relevant past experience:", semantic)
  }

  lemma ProjectPart(bundle: Bundle, policy: Policy)
    ensures Led(ProjectSection(bundle, policy), "\n\n")
         == Part("\n\n", "Current project context:",
                 Taken(policy.includeProject, bundle.project, ProjectLine, Slot(policy, "project", 140)))
  {
    TitledReads("Current project context:\n", "Current project context:",
                Taken(policy.includeProject, bundle.project, ProjectLine, Slot(policy, "project", 140)));
  }

  lemma TaskPart(bundle: Bundle, policy: Policy)
    ensures Led(TaskSection(bundle, policy), "\n\n")
         == Part("\n\n", "Current task state:",
                 Taken(policy.includeTask, bundle.task, TaskLine, Slot(policy, "task", 120)))
  {
    TitledReads("Current task state:\n", "Current task state:",
                Taken(policy.includeTask, bundle.task, TaskLine, Slot(policy, "task", 120)));
  }

  lemma SemanticPart(bundle: Bundle, policy: Policy)
    ensures Led(SemanticSection(bundle, policy), "\n\n")
         == Part("\n\n", "Relevant past experience:",
                 Taken(policy.includeSemantic, bundle.semantic, Strip, Slot(policy, "semantic", 220)))
  {
    TitledReads("Relevant past experience:\n", "Relevant past experience:",
                Taken(policy.includeSemantic, bundle.semantic, Strip, Slot(policy, "semantic", 220)));
  }

  lemma SectionsRead(bundle: Bundle, policy: Policy)
    ensures Led(Sections(bundle, policy), "\n\n") == Body(bundle, policy)
  {
    var a, b := ProfileSection(bundle, policy), ProjectSection(bundle, policy);
    var c, d := TaskSection(bundle, policy), SemanticSection(bundle, policy);
    assert Sections(bundle, policy) == a + b + c + d;
    hide Sections;
    hide ProfileSection;
    hide ProjectSection;
    hide TaskSection;
    hide SemanticSection;
    hide Led;
    hide Part;
    hide Taken;
    LedOfConcat(a + b + c, d, "\n\n");
    LedOfConcat(a + b, c, "\n\n");
    LedOfConcat(a, b, "\n\n");
    ProfileReads(bundle, policy);
    ProjectPart(bundle, policy);
    TaskPart(bundle, policy);
    SemanticPart(bundle, policy);
  }

  /** The whole block, for every bundle and policy. */
  lemma BlockReads(bundle: Bundle, policy: Policy)
    ensures Sections(bundle, policy) == [] <==> Body(bundle, policy) == ""
    ensures Body(bundle, policy) != "" ==> Joined(bundle, policy) == "[Relevant memory]" + Body(bundle, policy)[1..]
  {
    hide Sections;
    hide Body;
    SectionsRead(bundle, policy);
    JoinIsLed(Sections(bundle, policy), "\n\n");
    if Sections(bundle, policy) != [] {
      assert ("\n\n" + Join(Sections(bundle, policy), "\n\n"))[1..] == "\n" + Join(Sections(bundle, policy), "\n\n");
    }
  }

  /** A text over its budget is cut 18 characters short of it; whitespace before the cut goes, and the marker
      follows. */
  lemma TruncatedReads(text: string, budget: int, marker: string) returns (left: string)
    requires 240 <= budget < |text|
    ensures Truncate(text, budget, marker) == left + marker
    ensures |left| <= budget - 18 && left == text[..|left|] && (left != "" ==> !IsSpace(left[|left| - 1]))
    ensures forall i :: |left| <= i < budget - 18 ==> IsSpace(text[i])
  {
    hide IsSpace;
    var kept := text[..budget - 18];
    left := RStrip(kept);
    RStripDropsSpace(kept);
    forall i | |left| <= i < budget - 18 ensures IsSpace(text[i]) {
      assert kept[i] == text[i];
    }
  }

  /** The block cut this way ends in the truncation marker. */
  lemma CutBlockReads(bundle: Bundle, policy: Policy) returns (left: string)
    requires Sections(bundle, policy) != [] && |Joined(bundle, policy)| > CharBudget(policy)
    ensures Summary(bundle, policy) == left + "\n...[truncated memory]"
    ensures |left| <= CharBudget(policy) - 18 && left == Joined(bundle, policy)[..|left|]
    ensures left != "" ==> !IsSpace(left[|left| - 1])
    ensures forall i :: |left| <= i < CharBudget(policy) - 18 ==> IsSpace(Joined(bundle, policy)[i])
  {
    hide IsSpace;
    hide Joined;
    hide Sections;
    hide Truncate;
    left := TruncatedReads(Joined(bundle, policy), CharBudget(policy), TRUNCATED);
  }

  /** Project memories are included for work on a project only; the allowance of the block in characters, and of
      its slots. */
  lemma PolicyTable(category: string)
    ensures var policy := PolicyFor(category);
            && policy.includeProfile && policy.includeTask && policy.includeSemantic
            && (policy.includeProject <==> category in ["fairy_development", "coding_help", "browser_agent_task"])
            && CharBudget(policy) == (if category == "fairy_development" then 2016
                                      else if category == "coding_help" then 1764
                                      else if category in ["web_research", "browser_agent_task"] then 1344
                                      else if category == "shopping" then 1176
                                      else 1008)
  {
  }

  /** The slots are given in characters; the environment has 80, as half of the profile's is less. */
  lemma SlotTable(category: string)
    ensures var policy := PolicyFor(category);
            && ProfileBudget(policy) == 120 && EnvironmentBudget(policy) == 80
            && Slot(policy, "project", 140) == (if category == "fairy_development" then 220
                                                else if category == "coding_help" then 180
                                                else if category in ["shopping", "browser_agent_task"] then 140
                                                else 80)
            && Slot(policy, "task", 120) == (if category == "browser_agent_task" then 180 else 120)
            && Slot(policy, "semantic", 220) == (if category == "fairy_development" then 260
                                                 else if category == "coding_help" then 240
                                                 else if category in ["web_research", "browser_agent_task"] then 180
                                                 else if category == "shopping" then 160
                                                 else 140)
  {
    assert "profile"[3] != "project"[3];
  }

  /** In general the environment has half of the profile's characters, rounded down, but no fewer than 80. */
  lemma EnvironmentGetsHalf(policy: Policy)
    ensures EnvironmentBudget(policy) >= 80
    ensures EnvironmentBudget(policy) == 80 || 0 <= ProfileBudget(policy) - 2 * EnvironmentBudget(policy) <= 1
    ensures ProfileBudget(policy) >= 160 ==> 2 * EnvironmentBudget(policy) + 1 >= ProfileBudget(policy)
  {
  }
}
