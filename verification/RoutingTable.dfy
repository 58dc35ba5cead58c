/** What the router returns for which reply: the model's choice is followed, the policy's exceptions to that
    are these and no others, and without a usable reply the heuristic decides. */
module RoutingTable {
  import opened Options
  import opened Reals
  import opened SkillRouter

  predicate Registered(skills: seq<Skill>, name: string) {
    exists i :: 0 <= i < |skills| && skills[i].name == name
  }

  /** The heuristic's winner leaves a choice of this confidence alone. */
  predicate Stands(r: Request, skills: seq<Skill>, confidence: real) {
    confidence >= 0.20 || Best(Scores(skills, r)).score < 0.75
  }

  /** A skill is returned if its bundle loads; the direct answer needs none, and stands in for the others. */
  ghost predicate Returned(d: Decision, skill: string, confidence: real, reason: string, loadable: set<string>) {
    && (skill == DIRECT ==> d == Decision(DIRECT, confidence, reason, true))
    && (skill != DIRECT && skill in loadable ==> d == Decision(skill, confidence, reason, false))
    && (skill != DIRECT && skill !in loadable ==> d == Decision(DIRECT, 0.3, "bundle_load_failed:" + skill, true))
  }

  /** A choice that the policy has nothing against: no small talk, no screen skill without a local visual
      request, and no direct answer to one that is not a web request too. */
  predicate Unobjectionable(r: Request, skill: string) {
    && (r.social ==> skill == DIRECT)
    && (!r.social && skill == SCREEN ==> r.localVisual)
    && (!r.social && skill == DIRECT ==> !r.localVisual || r.web)
  }

  /** The model's choice is returned, with its own confidence and reason. */
  lemma ChoiceIsReturned(r: Request, skills: seq<Skill>, skill: string, confidence: real, reason: string,
                         loadable: set<string>)
    requires skill != "" && (skill == DIRECT || Registered(skills, skill)) && 0.0 <= confidence <= 1.0
    requires Unobjectionable(r, skill) && Stands(r, skills, confidence)
    ensures Returned(Route(r, skills, Chosen(skill, confidence, reason), loadable), skill, confidence, reason, loadable)
  {
    NamesDiffer();
  }

  /** A confidence out of range counts as the nearest end of it. */
  lemma ConfidenceIsClamped(r: Request, skills: seq<Skill>, skill: string, confidence: real, reason: string,
                            loadable: set<string>)
    ensures confidence > 1.0 ==> Route(r, skills, Chosen(skill, confidence, reason), loadable)
                                 == Route(r, skills, Chosen(skill, 1.0, reason), loadable)
    ensures confidence < 0.0 ==> Route(r, skills, Chosen(skill, confidence, reason), loadable)
                                 == Route(r, skills, Chosen(skill, 0.0, reason), loadable)
  {
    SameParse(skills, Chosen(skill, confidence, reason), Chosen(skill, 1.0, reason));
    SameParse(skills, Chosen(skill, confidence, reason), Chosen(skill, 0.0, reason));
  }

  lemma SameParse(skills: seq<Skill>, a: Reply, b: Reply)
    requires a.Chosen? && b.Chosen? && a.skill == b.skill && a.reason == b.reason
    ensures Max(0.0, Min(1.0, a.confidence)) == Max(0.0, Min(1.0, b.confidence)) ==>
      Parse(a, skills) == Parse(b, skills)
  {
  }

  /** Small talk: any skill becomes the direct answer, at 0.80 or more. */
  lemma SmallTalkBecomesDirect(r: Request, skills: seq<Skill>, skill: string, confidence: real, reason: string,
                               loadable: set<string>)
    requires r.social && skill != "" && skill != DIRECT && Registered(skills, skill) && 0.0 <= confidence <= 1.0
    ensures Route(r, skills, Chosen(skill, confidence, reason), loadable)
      == Decision(DIRECT, Max(confidence, 0.80), "policy:casual_turn_prefers_direct_answer", true)
  {
    NamesDiffer();
  }

  /** The screen skill without a local visual request becomes web research if the request is one, at 0.65 or
      more, and otherwise the direct answer at 0.55 or more. */
  lemma ScreenWithoutVisualIsDiverted(r: Request, skills: seq<Skill>, confidence: real, reason: string,
                                      loadable: set<string>)
    requires !r.social && !r.localVisual && Registered(skills, SCREEN) && 0.0 <= confidence <= 1.0
    ensures var d := Route(r, skills, Chosen(SCREEN, confidence, reason), loadable);
            var why := "policy:screen_skill_requires_local_visual_context";
            if r.web then Returned(d, WEB, Max(confidence, 0.65), why, loadable)
            else d == Decision(DIRECT, Max(confidence, 0.55), why, true)
  {
    NamesDiffer();
    assert |SCREEN| == 20;
  }

  /** A direct answer to a local visual request that is not a web request becomes the screen skill, at 0.60
      or more. */
  lemma DirectOnVisualBecomesScreen(r: Request, skills: seq<Skill>, confidence: real, reason: string,
                                    loadable: set<string>)
    requires !r.social && r.localVisual && !r.web && 0.0 <= confidence <= 1.0
    ensures Returned(Route(r, skills, Chosen(DIRECT, confidence, reason), loadable), SCREEN, Max(confidence, 0.60),
                     "policy:local_visual_request_needs_visual_skill", loadable)
  {
    NamesDiffer();
    assert |DIRECT| == 13;
  }

  /** A choice the policy has nothing against, but below 0.20, yields to a heuristic winner of 0.75 or more. */
  lemma UnsureChoiceYields(r: Request, skills: seq<Skill>, skill: string, confidence: real, reason: string,
                           loadable: set<string>)
    requires skill != "" && (skill == DIRECT || Registered(skills, skill)) && 0.0 <= confidence <= 1.0
    requires Unobjectionable(r, skill) && !Stands(r, skills, confidence)
    ensures var best := Best(Scores(skills, r));
            Returned(Route(r, skills, Chosen(skill, confidence, reason), loadable),
                     best.name, best.score, "heuristic_fallback", loadable)
  {
    NamesDiffer();
  }

  /** Without a usable reply: the heuristic's winner from 0.25 on, or else what the text tests say. */
  lemma HeuristicDecides(r: Request, skills: seq<Skill>, loadable: set<string>)
    ensures var d, best := Route(r, skills, NoModel, loadable), Best(Scores(skills, r));
            if best.score >= 0.75 || (best.name != "" && best.score >= 0.25) then
              Returned(d, best.name, best.score, "heuristic_fallback", loadable)
            else if r.localVisual then
              Returned(d, SCREEN, 0.42, "policy_fallback:local_visual_request", loadable)
            else if r.web then
              Returned(d, WEB, 0.42, "policy_fallback:web_request", loadable)
            else d == Decision(DIRECT, 0.5, "no_skill_matched", true)
  {
    NamesDiffer();
  }

  /** A garbled reply, an empty skill and one that is not registered are as good as no reply. */
  lemma UnusableRepliesAreIgnored(r: Request, skills: seq<Skill>, reply: Reply, loadable: set<string>)
    requires reply.Chosen? ==> reply.skill == "" || (reply.skill != DIRECT && !Registered(skills, reply.skill))
    ensures Route(r, skills, reply, loadable) == Route(r, skills, NoModel, loadable)
  {
    assert Parse(reply, skills).None? && Parse(NoModel, skills).None?;
  }
}
