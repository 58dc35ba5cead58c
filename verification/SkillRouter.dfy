/** The lazy skill router: heuristic scores, the language model's choice, the policy guard, thresholds.
    Text tests are inputs; so is the model's reply and which bundles can be loaded. */
module SkillRouter {
  import opened FiniteSets
  import opened Options
  import opened Reals

  const DIRECT := "direct_answer"
  const SCREEN := "screen-understanding"
  const WEB := "web-research"

  const HEURISTIC_CONFIDENCE_THRESHOLD := 0.75
  const HEURISTIC_MIN_SKILL_CONFIDENCE := 0.25
  const LLM_PRIMARY_MIN_CONFIDENCE := 0.20

  /** A registered skill; `hits` says which of its trigger keywords occur in the request. */
  datatype Skill = Skill(name: string, hits: seq<bool>, description: set<string>, priority: int)

  datatype Context = Context(previousSkill: string, followups: int)

  /** A request as the router sees it: its words and what the text tests say about it. */
  datatype Request = Request(tokens: set<string>, social: bool, localVisual: bool, web: bool, context: Option<Context>)

  function CountHits(hits: seq<bool>): (n: nat)
    ensures n <= |hits|
  {
    if hits == [] then 0 else (if hits[0] then 1 else 0) + CountHits(hits[1..])
  }

  function KeywordPart(skill: Skill): real {
    if skill.hits == [] then 0.0
    else 0.5 * Min(1.0, CountHits(skill.hits) as real / Max(2.0, |skill.hits| as real * 0.3))
  }

  function DescriptionPart(skill: Skill, tokens: set<string>): real {
    if skill.description == {} then 0.0
    else 0.15 * (|tokens * skill.description| as real / |skill.description| as real)
  }

  /** The bonuses that depend on what the request and the previous turn look like. */
  function Bonus(skill: Skill, r: Request): real {
    (if r.context.Some? && r.context.value.previousSkill == skill.name && !r.social then 0.15 else 0.0)
    + (if skill.name == WEB && r.web then 0.18 else 0.0)
    + (if skill.name == SCREEN && r.localVisual then 0.18 else 0.0)
    + (if skill.name == SCREEN && r.context.Some? && r.context.value.followups > 0 && r.localVisual then 0.25 else 0.0)
  }

  function Damping(skill: Skill, r: Request): real {
    (if skill.name == SCREEN && !r.localVisual then 0.35 else 1.0)
    * (if skill.name == WEB && !r.web then 0.90 else 1.0)
    * (if r.social then 0.65 else 1.0)
  }

  function RawScore(skill: Skill, r: Request): real {
    KeywordPart(skill) + DescriptionPart(skill, r.tokens) + Bonus(skill, r) + 0.05 * (skill.priority as real / 100.0)
  }

  function Score(skill: Skill, r: Request): real {
    Min(RawScore(skill, r) * Damping(skill, r), 1.0)
  }

  datatype Scored = Scored(name: string, score: real)

  /** Assigning to a dictionary keeps the position of a key that is already there. */
  function Put(scores: seq<Scored>, name: string, score: real): seq<Scored> {
    if scores == [] then [Scored(name, score)]
    else if scores[0].name == name then [Scored(name, score)] + scores[1..]
    else [scores[0]] + Put(scores[1..], name, score)
  }

  function Scores(skills: seq<Skill>, r: Request): seq<Scored> {
    if skills == [] then []
    else
      var last := skills[|skills| - 1];
      Put(Scores(skills[..|skills| - 1], r), last.name, Score(last, r))
  }

  method HeuristicScores(skills: seq<Skill>, r: Request) returns (scores: seq<Scored>)
    ensures scores == Scores(skills, r)
  {
    scores := [];
    for i := 0 to |skills|
      invariant scores == Scores(skills[..i], r)
    {
      assert skills[..i + 1][..i] == skills[..i];
      var score := ScoreOf(skills[i], r);
      scores := Put(scores, skills[i].name, score);
    }
    assert skills[..|skills|] == skills;
  }

  method ScoreOf(skill: Skill, r: Request) returns (score: real)
    ensures score == Score(skill, r)
  {
    score := RawScoreOf(skill, r);
    score := Damped(skill, r, score);
    score := Min(score, 1.0);
  }

  method RawScoreOf(skill: Skill, r: Request) returns (score: real)
    ensures score == RawScore(skill, r)
  {
    score := 0.0;
    if skill.hits != [] {
      score := score + 0.5 * Min(1.0, CountHits(skill.hits) as real / Max(2.0, |skill.hits| as real * 0.3));
    }
    if skill.description != {} {
      score := score + 0.15 * (|r.tokens * skill.description| as real / |skill.description| as real);
    }
    score := WithBonus(skill, r, score);
    score := score + 0.05 * (skill.priority as real / 100.0);
  }

  method WithBonus(skill: Skill, r: Request, start: real) returns (score: real)
    ensures score == start + Bonus(skill, r)
  {
    score := start;
    if r.context.Some? && r.context.value.previousSkill == skill.name && !r.social {
      score := score + 0.15;
    }
    if skill.name == WEB && r.web {
      score := score + 0.18;
    }
    if skill.name == SCREEN && r.localVisual {
      score := score + 0.18;
    }
    if skill.name == SCREEN && r.context.Some? && r.context.value.followups > 0 && r.localVisual {
      score := score + 0.25;
    }
  }

  method Damped(skill: Skill, r: Request, raw: real) returns (score: real)
    ensures score == raw * Damping(skill, r)
  {
    score := raw;
    if skill.name == SCREEN && !r.localVisual {
      score := score * 0.35;
    }
    if skill.name == WEB && !r.web {
      score := score * 0.90;
    }
    if r.social {
      score := score * 0.65;
    }
  }

  /** The first entry with the greatest score. */
  function Best(scores: seq<Scored>): Scored {
    if scores == [] then Scored("", 0.0)
    else if |scores| == 1 then scores[0]
    else
      var rest := Best(scores[1..]);
      if scores[0].score >= rest.score then scores[0] else rest
  }

  // ---- The model's reply and the decision ----

  /** What the model answered, its text fields already stripped; Garbled is any reply without a skill. */
  datatype Reply = NoModel | Garbled | Chosen(skill: string, confidence: real, reason: string)

  datatype Decision = Decision(skill: string, confidence: real, reason: string, direct: bool)

  /** A reply counts only if it names a registered skill or the direct answer. */
  function Parse(reply: Reply, skills: seq<Skill>): Option<Decision> {
    if !reply.Chosen? || reply.skill == "" then None
    else if reply.skill != DIRECT && !(exists i :: 0 <= i < |skills| && skills[i].name == reply.skill) then None
    else Some(Decision(reply.skill, Max(0.0, Min(1.0, reply.confidence)), reply.reason, reply.skill == DIRECT))
  }

  function Guard(d: Decision, r: Request): Decision {
    if r.social then
      if d.skill != DIRECT then
        Decision(DIRECT, Max(d.confidence, 0.80), "policy:casual_turn_prefers_direct_answer", true)
      else d
    else if d.skill == SCREEN && !r.localVisual then
      if r.web then
        Decision(WEB, Max(d.confidence, 0.65), "policy:screen_skill_requires_local_visual_context", false)
      else
        Decision(DIRECT, Max(d.confidence, 0.55), "policy:screen_skill_requires_local_visual_context", true)
    else if d.skill == DIRECT && r.localVisual && !r.web then
      Decision(SCREEN, Max(d.confidence, 0.60), "policy:local_visual_request_needs_visual_skill", false)
    else d
  }

  function Finalize(skill: string, confidence: real, reason: string, direct: bool, loadable: set<string>): Decision {
    if direct || skill == DIRECT then Decision(DIRECT, confidence, reason, true)
    else if skill !in loadable then Decision(DIRECT, 0.3, "bundle_load_failed:" + skill, true)
    else Decision(skill, confidence, reason, false)
  }

  function Conclude(d: Decision, loadable: set<string>): Decision {
    Finalize(d.skill, d.confidence, d.reason, d.direct, loadable)
  }

  function Fallback(best: Scored, r: Request, loadable: set<string>): Decision {
    if best.name != "" && best.score >= HEURISTIC_MIN_SKILL_CONFIDENCE then
      Finalize(best.name, best.score, "heuristic_fallback", false, loadable)
    else if r.localVisual then
      Finalize(SCREEN, 0.42, "policy_fallback:local_visual_request", false, loadable)
    else if r.web then
      Finalize(WEB, 0.42, "policy_fallback:web_request", false, loadable)
    else
      Decision(DIRECT, 0.5, "no_skill_matched", true)
  }

  /** The model's choice after the policy guard. */
  function Guarded(r: Request, skills: seq<Skill>, reply: Reply): Option<Decision> {
    match Parse(reply, skills)
    case Some(d) => Some(Guard(d, r))
    case None => None
  }

  /** The thresholds decide between the guarded choice, the heuristic's winner and the fallbacks. */
  function Route(r: Request, skills: seq<Skill>, reply: Reply, loadable: set<string>): Decision {
    var best := Best(Scores(skills, r));
    match Guarded(r, skills, reply)
    case Some(d) =>
      if d.confidence >= LLM_PRIMARY_MIN_CONFIDENCE || best.score < HEURISTIC_CONFIDENCE_THRESHOLD then
        Conclude(d, loadable)
      else if best.score >= HEURISTIC_CONFIDENCE_THRESHOLD then
        Finalize(best.name, best.score, "heuristic_fallback", false, loadable)
      else Conclude(d, loadable)
    case None =>
      if best.score >= HEURISTIC_CONFIDENCE_THRESHOLD then
        Finalize(best.name, best.score, "heuristic_fallback", false, loadable)
      else Fallback(best, r, loadable)
  }

  // ---- Bounds on the scores ----

  ghost predicate PrioritiesAtMost100(skills: seq<Skill>) {
    forall i :: 0 <= i < |skills| ==> skills[i].priority <= 100
  }

  lemma RatioAtMostOne(x: real, y: real)
    requires 0.0 <= x <= y && y > 0.0
    ensures 0.0 <= x / y <= 1.0
  {
    var q := x / y;
    assert x == q * y;
    assert q > 1.0 ==> (q - 1.0) * y > 0.0;
    assert q < 0.0 ==> q * y < 0.0;
  }

  lemma PartsAreBounded(skill: Skill, tokens: set<string>)
    ensures KeywordPart(skill) <= 0.5 && DescriptionPart(skill, tokens) <= 0.15
  {
    if skill.description != {} {
      SubsetSize(tokens * skill.description, skill.description);
      var x := Pick(skill.description);
      assert |skill.description| > 0;
      RatioAtMostOne(|tokens * skill.description| as real, |skill.description| as real);
    }
  }

  /** A social turn scores at most 0.7345, and the screen skill on a request that is not a local
      visual one at most 0.2975: both below the threshold for overriding the model. */
  lemma ScoreCaps(skill: Skill, r: Request)
    requires skill.priority <= 100
    ensures r.social ==> Score(skill, r) <= 0.7345
    ensures skill.name == SCREEN && !r.localVisual ==> Score(skill, r) <= 0.2975
  {
    PartsAreBounded(skill, r.tokens);
    NamesDiffer();
    var raw, damping := RawScore(skill, r), Damping(skill, r);
    assert 0.05 * (skill.priority as real / 100.0) <= 0.05;
    if r.social || (skill.name == SCREEN && !r.localVisual) {
      assert raw <= 0.7 + Bonus(skill, r);
      DampedCap(skill, r, raw);
    }
  }

  lemma NamesDiffer()
    ensures WEB != SCREEN && WEB != DIRECT && SCREEN != DIRECT
  {
    assert |WEB| == 12 && |SCREEN| == 20 && |DIRECT| == 13;
  }

  lemma DampedCap(skill: Skill, r: Request, raw: real)
    requires raw <= 0.7 + Bonus(skill, r) && WEB != SCREEN
    ensures r.social ==> raw * Damping(skill, r) <= 0.7345
    ensures skill.name == SCREEN && !r.localVisual ==> raw * Damping(skill, r) <= 0.2975
  {
  }

  /** Every entry of the table is the score of some registered skill. */
  ghost predicate FromSkills(scores: seq<Scored>, skills: seq<Skill>, r: Request) {
    forall e :: e in scores ==>
      exists i :: 0 <= i < |skills| && skills[i].name == e.name && Score(skills[i], r) == e.score
  }

  lemma {:induction false} PutEntries(scores: seq<Scored>, name: string, score: real, e: Scored)
    requires e in Put(scores, name, score)
    ensures e in scores || e == Scored(name, score)
  {
    if scores != [] && scores[0].name != name && e != scores[0] {
      PutEntries(scores[1..], name, score, e);
    }
  }

  lemma {:induction false} ScoresAreFromSkills(skills: seq<Skill>, r: Request)
    ensures FromSkills(Scores(skills, r), skills, r)
  {
    if skills != [] {
      var before, last := skills[..|skills| - 1], skills[|skills| - 1];
      ScoresAreFromSkills(before, r);
      forall e | e in Scores(skills, r)
        ensures exists i :: 0 <= i < |skills| && skills[i].name == e.name && Score(skills[i], r) == e.score
      {
        PutEntries(Scores(before, r), last.name, Score(last, r), e);
        if e in Scores(before, r) {
          var i :| 0 <= i < |before| && before[i].name == e.name && Score(before[i], r) == e.score;
          assert skills[i] == before[i];
        }
      }
    }
  }

  /** `max` picks an entry of the table none of whose others scores higher. */
  lemma {:induction false} BestIsGreatest(scores: seq<Scored>)
    requires scores != []
    ensures Best(scores) in scores && forall e :: e in scores ==> e.score <= Best(scores).score
  {
    if |scores| > 1 {
      BestIsGreatest(scores[1..]);
    }
  }

  /** The caps carry over to the winner of the heuristic. */
  lemma BestIsCapped(skills: seq<Skill>, r: Request)
    requires PrioritiesAtMost100(skills)
    ensures var best := Best(Scores(skills, r));
            && (r.social ==> best.score <= 0.7345)
            && (best.name == SCREEN && !r.localVisual ==> best.score <= 0.2975)
  {
    var scores := Scores(skills, r);
    NamesDiffer();
    if scores != [] {
      ScoresAreFromSkills(skills, r);
      BestIsGreatest(scores);
      var best := Best(scores);
      var i :| 0 <= i < |skills| && skills[i].name == best.name && Score(skills[i], r) == best.score;
      ScoreCaps(skills[i], r);
    }
  }

  // ---- What routing guarantees ----

  /** With a usable reply, small talk is always answered directly. */
  lemma SocialTurnsAreAnsweredDirectly(r: Request, skills: seq<Skill>, reply: Reply, loadable: set<string>)
    requires PrioritiesAtMost100(skills) && r.social && Parse(reply, skills).Some?
    ensures Route(r, skills, reply, loadable).skill == DIRECT && Route(r, skills, reply, loadable).direct
  {
    BestIsCapped(skills, r);
  }

  /** For a request that is not a local visual one, the screen skill is chosen exactly when there is
      no usable reply, the heuristic's winner is the screen skill with at least 1/4, and it loads. */
  lemma ScreenNeedsLocalVisualRequest(r: Request, skills: seq<Skill>, reply: Reply, loadable: set<string>)
    requires PrioritiesAtMost100(skills) && !r.localVisual
    ensures var best := Best(Scores(skills, r));
            Route(r, skills, reply, loadable).skill == SCREEN <==>
              && Parse(reply, skills).None?
              && best.name == SCREEN && best.score >= HEURISTIC_MIN_SKILL_CONFIDENCE && SCREEN in loadable
  {
    BestIsCapped(skills, r);
    var best := Best(Scores(skills, r));
    FinalizesAs(best.name, best.score, "heuristic_fallback", false, loadable);
    FallbackIsScreen(best, r, loadable);
    if Guarded(r, skills, reply).Some? {
      var d := Guarded(r, skills, reply).value;
      GuardKeepsOffScreen(Parse(reply, skills).value, r);
      FinalizesAs(d.skill, d.confidence, d.reason, d.direct, loadable);
    }
  }

  lemma FinalizesAs(skill: string, confidence: real, reason: string, direct: bool, loadable: set<string>)
    ensures Finalize(skill, confidence, reason, direct, loadable).skill == SCREEN
            <==> !direct && skill == SCREEN && SCREEN in loadable
  {
    NamesDiffer();
  }

  lemma FallbackIsScreen(best: Scored, r: Request, loadable: set<string>)
    requires !r.localVisual
    ensures Fallback(best, r, loadable).skill == SCREEN
            <==> best.name == SCREEN && best.score >= HEURISTIC_MIN_SKILL_CONFIDENCE && SCREEN in loadable
  {
    NamesDiffer();
    FinalizesAs(best.name, best.score, "heuristic_fallback", false, loadable);
    FinalizesAs(WEB, 0.42, "policy_fallback:web_request", false, loadable);
  }

  lemma GuardKeepsOffScreen(d: Decision, r: Request)
    requires !r.localVisual
    ensures Guard(d, r).skill != SCREEN
  {
    NamesDiffer();
  }

  /** Small talk is routed elsewhere exactly when there is no usable reply and a fallback loads. */
  lemma SocialTurnsAreRoutedAwayExactly(r: Request, skills: seq<Skill>, reply: Reply, loadable: set<string>)
    requires PrioritiesAtMost100(skills) && r.social
    ensures var best := Best(Scores(skills, r));
            Route(r, skills, reply, loadable).skill != DIRECT <==>
              && Parse(reply, skills).None?
              && (if best.name != "" && best.score >= HEURISTIC_MIN_SKILL_CONFIDENCE
                  then best.name != DIRECT && best.name in loadable
                  else if r.localVisual then SCREEN in loadable
                  else r.web && WEB in loadable)
  {
    BestIsCapped(skills, r);
    NamesDiffer();
  }

  /** Whatever is not a direct answer is a bundle that was loaded. */
  lemma RoutedBundlesAreLoaded(r: Request, skills: seq<Skill>, reply: Reply, loadable: set<string>)
    ensures Loaded(Route(r, skills, reply, loadable), loadable)
  {
    if Guarded(r, skills, reply).Some? {
      var d := Guarded(r, skills, reply).value;
      ConclusionIsLoaded(d.skill, d.confidence, d.reason, d.direct, loadable);
    }
    var best := Best(Scores(skills, r));
    ConclusionIsLoaded(best.name, best.score, "heuristic_fallback", false, loadable);
    FallbackIsLoaded(best, r, loadable);
  }

  ghost predicate Loaded(d: Decision, loadable: set<string>) {
    (d.direct <==> d.skill == DIRECT) && (d.direct || d.skill in loadable)
  }

  lemma ConclusionIsLoaded(skill: string, confidence: real, reason: string, direct: bool, loadable: set<string>)
    ensures Loaded(Finalize(skill, confidence, reason, direct, loadable), loadable)
  {
  }

  lemma FallbackIsLoaded(best: Scored, r: Request, loadable: set<string>)
    ensures Loaded(Fallback(best, r, loadable), loadable)
  {
    ConclusionIsLoaded(best.name, best.score, "heuristic_fallback", false, loadable);
    ConclusionIsLoaded(SCREEN, 0.42, "policy_fallback:local_visual_request", false, loadable);
    ConclusionIsLoaded(WEB, 0.42, "policy_fallback:web_request", false, loadable);
  }

  lemma {:induction false} ScoresAtMostOne(skills: seq<Skill>, r: Request)
    ensures Best(Scores(skills, r)).score <= 1.0
  {
    var scores := Scores(skills, r);
    if scores != [] {
      ScoresAreFromSkills(skills, r);
      BestIsGreatest(scores);
      var best := Best(scores);
      var i :| 0 <= i < |skills| && skills[i].name == best.name && Score(skills[i], r) == best.score;
      assert Score(skills[i], r) <= 1.0;
    }
  }

  lemma ReplyConfidence(reply: Reply, skills: seq<Skill>)
    ensures Parse(reply, skills).Some? ==> 0.0 <= Parse(reply, skills).value.confidence <= 1.0
  {
  }

  lemma GuardConfidence(d: Decision, r: Request)
    requires 0.0 <= d.confidence <= 1.0
    ensures 0.0 <= Guard(d, r).confidence <= 1.0
  {
  }

  lemma FinalConfidence(skill: string, confidence: real, reason: string, direct: bool, loadable: set<string>)
    requires 0.0 <= confidence <= 1.0
    ensures 0.0 <= Finalize(skill, confidence, reason, direct, loadable).confidence <= 1.0
  {
  }

  lemma ChosenConfidence(r: Request, skills: seq<Skill>, reply: Reply, loadable: set<string>)
    ensures var chosen := Guarded(r, skills, reply);
            chosen.Some? ==> 0.0 <= Conclude(chosen.value, loadable).confidence <= 1.0
  {
    ReplyConfidence(reply, skills);
    var parsed := Parse(reply, skills);
    if parsed.Some? {
      GuardConfidence(parsed.value, r);
      var d := Guard(parsed.value, r);
      FinalConfidence(d.skill, d.confidence, d.reason, d.direct, loadable);
    }
  }

  lemma FallbackConfidence(best: Scored, r: Request, loadable: set<string>)
    requires best.score <= 1.0
    ensures 0.0 <= Fallback(best, r, loadable).confidence <= 1.0
  {
    if best.score >= 0.0 {
      FinalConfidence(best.name, best.score, "heuristic_fallback", false, loadable);
    }
  }

  /** Whatever the priorities and whatever the model claims, a decision's confidence is between 0 and 1. */
  lemma ConfidenceIsAFraction(r: Request, skills: seq<Skill>, reply: Reply, loadable: set<string>)
    ensures 0.0 <= Route(r, skills, reply, loadable).confidence <= 1.0
  {
    ScoresAtMostOne(skills, r);
    ChosenConfidence(r, skills, reply, loadable);
    var best := Best(Scores(skills, r));
    FallbackConfidence(best, r, loadable);
    if best.score >= 0.0 {
      FinalConfidence(best.name, best.score, "heuristic_fallback", false, loadable);
    }
  }

  /** The screen skill at its best: every trigger and every description word in the request, and the
      highest priority. */
  const FITTING := Skill(SCREEN, [true, true], {"hello"}, 100)

  /** "hello" with a picture attached, right after the screen skill. */
  const SMALL_TALK := Request({"hello"}, true, true, false, Some(Context(SCREEN, 1)))

  /** "hello again" without one: neither small talk nor about anything on the screen. */
  const PLAIN := Request({"hello", "again"}, false, false, false, Some(Context(SCREEN, 1)))

  lemma FittingScores()
    ensures Score(FITTING, SMALL_TALK) == 0.7345 && Score(FITTING, PLAIN) == 0.2975
  {
    NamesDiffer();
    assert CountHits([true, true]) == 2 by { assert [true, true][1..] == [true] && [true][1..] == []; }
    assert {"hello"} * {"hello"} == {"hello"} && {"hello", "again"} * {"hello"} == {"hello"};
    assert KeywordPart(FITTING) == 0.5;
    assert DescriptionPart(FITTING, SMALL_TALK.tokens) == 0.15 && DescriptionPart(FITTING, PLAIN.tokens) == 0.15;
  }

  /** The caps are reached, so the gaps to the thresholds are as small as they look. */
  lemma CapsAreReached()
    ensures exists skill: Skill, r: Request :: skill.priority <= 100 && r.social && Score(skill, r) == 0.7345
    ensures exists skill: Skill, r: Request ::
      skill.priority <= 100 && skill.name == SCREEN && !r.localVisual && Score(skill, r) == 0.2975
  {
    FittingScores();
  }

  lemma OnlySkillIsBest(skill: Skill, r: Request)
    ensures Best(Scores([skill], r)) == Scored(skill.name, Score(skill, r))
  {
    assert [skill][..0] == [] && Scores([], r) == [];
  }

  /** Without a model both do go wrong: small talk is routed to the screen skill, and so is a request
      that has nothing to do with the screen. */
  lemma WithoutAModelSmallTalkIsRouted(loadable: set<string>)
    requires SCREEN in loadable
    ensures Route(SMALL_TALK, [FITTING], NoModel, loadable).skill == SCREEN
    ensures Route(PLAIN, [FITTING], NoModel, loadable).skill == SCREEN
  {
    FittingScores();
    OnlySkillIsBest(FITTING, SMALL_TALK);
    OnlySkillIsBest(FITTING, PLAIN);
    NamesDiffer();
    assert |SCREEN| == 20;
  }
}
