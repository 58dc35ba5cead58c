/** What each signal adds to a skill's heuristic score, and which score the table and its winner hold. */
module SkillScores {
  import opened Options
  import opened Reals
  import opened SkillRouter

  // ---- What each signal adds ----

  /** Without any signal a skill scores nothing. */
  lemma NoSignalNoScore(skill: Skill, r: Request)
    requires skill.hits == [] && skill.description == {} && skill.priority == 0 && r.context.None?
    requires skill.name == WEB ==> !r.web
    requires skill.name == SCREEN ==> !r.localVisual
    ensures RawScore(skill, r) == 0.0 && Score(skill, r) == 0.0
  {
    NamesDiffer();
  }

  /** Trigger keywords add up to one half, in proportion to the hits, and all of it at two hits or three
      tenths of the keywords, whichever is more. */
  lemma KeywordsAdd(skill: Skill, r: Request, hits: nat, needed: real)
    requires skill.hits != [] && hits == CountHits(skill.hits)
    requires needed == (if |skill.hits| as real * 0.3 > 2.0 then |skill.hits| as real * 0.3 else 2.0)
    ensures RawScore(skill, r) - RawScore(skill.(hits := []), r)
            == (if hits as real >= needed then 0.5 else 0.5 * (hits as real / needed))
  {
    var q := Share(hits as real, needed);
    assert KeywordPart(skill) == 0.5 * Min(1.0, q);
  }

  lemma Share(x: real, y: real) returns (q: real)
    requires y > 0.0
    ensures q == x / y && (x >= y ==> q >= 1.0) && (x < y ==> q < 1.0)
  {
    q := x / y;
    assert q * y == x;
    assert q < 1.0 ==> (1.0 - q) * y > 0.0;
    assert q >= 1.0 ==> (q - 1.0) * y >= 0.0;
  }

  lemma {:induction false} HitsAreCounted(hits: seq<bool>)
    ensures CountHits(hits) == multiset(hits)[true]
  {
    if hits != [] {
      HitsAreCounted(hits[1..]);
      assert hits == [hits[0]] + hits[1..];
    }
  }

  /** The words of the description add up to 0.15, in proportion to those in the request. */
  lemma DescriptionAdds(skill: Skill, r: Request)
    requires skill.description != {}
    ensures |skill.description| > 0
    ensures RawScore(skill, r) - RawScore(skill.(description := {}), r)
            == 0.15 * (|r.tokens * skill.description| as real / |skill.description| as real)
  {
  }

  /** A point of priority adds one two-thousandth. */
  lemma PriorityAdds(skill: Skill, r: Request, more: int)
    ensures RawScore(skill.(priority := skill.priority + more), r) - RawScore(skill, r) == more as real * 0.0005
  {
  }

  /** Having been used last adds 0.15, except to small talk. */
  lemma PreviousSkillAdds(skill: Skill, r: Request, other: string, followups: int)
    requires other != skill.name
    ensures RawScore(skill, r.(context := Some(Context(skill.name, followups))))
            - RawScore(skill, r.(context := Some(Context(other, followups))))
            == if r.social then 0.0 else 0.15
  {
  }

  /** A web request adds 0.18 to the web skill alone. */
  lemma WebAdds(skill: Skill, r: Request)
    ensures RawScore(skill, r.(web := true)) - RawScore(skill, r.(web := false))
            == if skill.name == "web-research" then 0.18 else 0.0
  {
  }

  /** A local visual request adds 0.18 to the screen skill alone, and 0.43 while follow-ups are expected. */
  lemma LocalVisualAdds(skill: Skill, r: Request)
    ensures RawScore(skill, r.(localVisual := true)) - RawScore(skill, r.(localVisual := false))
            == if skill.name != "screen-understanding" then 0.0
               else if r.context.Some? && r.context.value.followups > 0 then 0.43 else 0.18
  {
  }

  /** The score is the sum of the signals, at most 1: cut to 35 hundredths for the screen skill without a local
      visual request, to 90 for the web skill without a web request, and to 65 for small talk. */
  lemma ScoreIsDamped(skill: Skill, r: Request)
    ensures var first := if skill.name == "screen-understanding" && !r.localVisual then 0.35
                         else if skill.name == "web-research" && !r.web then 0.9 else 1.0;
            var cut := RawScore(skill, r) * (if r.social then first * 0.65 else first);
            Score(skill, r) == if cut > 1.0 then 1.0 else cut
  {
    NamesDiffer();
  }

  // ---- The table and its winner ----

  function LastOf(skills: seq<Skill>, name: string): Option<Skill> {
    if skills == [] then None
    else if skills[|skills| - 1].name == name then Some(skills[|skills| - 1])
    else LastOf(skills[..|skills| - 1], name)
  }

  ghost predicate OnceEach(scores: seq<Scored>) {
    forall i, j :: 0 <= i < j < |scores| ==> scores[i].name != scores[j].name
  }

  lemma {:induction false} PutHolds(scores: seq<Scored>, name: string, score: real)
    requires OnceEach(scores)
    ensures OnceEach(Put(scores, name, score))
    ensures forall e :: e in Put(scores, name, score) <==> e == Scored(name, score) || (e in scores && e.name != name)
  {
    if scores != [] {
      var first, rest := scores[0], scores[1..];
      assert scores == [first] + rest;
      PutHolds(rest, name, score);
      if first.name != name {
        forall e | e in Put(rest, name, score) ensures e.name != first.name {
          assert e == Scored(name, score) || e in rest;
        }
      } else {
        assert forall e :: e in rest ==> e.name != name;
      }
    }
  }

  /** Every registered name is scored once, with the score of the last skill registered under it. */
  lemma {:induction false} EverySkillIsScored(skills: seq<Skill>, r: Request)
    ensures OnceEach(Scores(skills, r))
    ensures forall e :: e in Scores(skills, r) <==>
              LastOf(skills, e.name).Some? && e.score == Score(LastOf(skills, e.name).value, r)
  {
    if skills != [] {
      var before, last := skills[..|skills| - 1], skills[|skills| - 1];
      EverySkillIsScored(before, r);
      PutHolds(Scores(before, r), last.name, Score(last, r));
    }
  }

  /** Of several entries with the greatest score the first wins. */
  lemma {:induction false} BestIsFirst(scores: seq<Scored>, i: nat)
    requires i < |scores| && scores[i] == Best(scores)
    ensures exists k :: 0 <= k <= i && scores[k] == Best(scores)
                        && forall j :: 0 <= j < k ==> scores[j].score < Best(scores).score
    decreases |scores|
  {
    if i > 0 && scores[0].score < Best(scores[1..]).score {
      BestIsFirst(scores[1..], i - 1);
      var k :| 0 <= k <= i - 1 && scores[1..][k] == Best(scores)
               && forall j :: 0 <= j < k ==> scores[1..][j].score < Best(scores).score;
      assert scores[k + 1] == Best(scores);
      forall j | 0 <= j < k + 1 ensures scores[j].score < Best(scores).score {
        assert j > 0 ==> scores[j] == scores[1..][j - 1];
      }
    } else {
      assert scores[0] == Best(scores);
    }
  }
}
