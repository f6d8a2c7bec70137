/** The keyword router: `assign_agent` is a first-match-wins decision list over six
    keyword groups tested against the lower-cased description, then a fall-back on the
    task type, then the architect pool. */
module Routing {
  import opened Common
  import opened Text
  import opened Agents

  const ArchitectureKeywords: seq<string> := ["architect", "design", "pattern", "structure"]
  const BackendKeywords: seq<string> := ["api", "endpoint", "database", "backend", "repository"]
  const CliKeywords: seq<string> := ["cli", "command", "terminal"]
  const PlatformKeywords: seq<string> := ["deploy", "docker", "kubernetes", "cicd", "infrastructure"]
  const IntegrationKeywords: seq<string> := ["integration", "webhook", "mcp", "external"]
  const QaKeywords: seq<string> := ["test", "qa", "quality", "review"]

  /** `any(keyword in text for keyword in keywords)`. */
  predicate MentionsAny(text: string, keywords: seq<string>)
  {
    exists i :: 0 <= i < |keywords| && Contains(text, keywords[i])
  }

  /** The agent chosen from the task type once no keyword group matched. */
  function ByType(taskType: string): AgentType
  {
    var t := Lower(taskType);
    if t == "feature" then BackendMaster
    else if t == "bugfix" || t == "refactor" then QaSentinel
    else LeadArchitect
  }

  /** `assign_agent(task)`, on the task's description and type. Every choice has a
      reason: the CLI, platform and integration pools are chosen only on one of their
      keywords, the backend and QA pools on a keyword or on their task types. */
  function AssignAgent(description: string, taskType: string): (r: AgentType)
    ensures r == CliArtisan ==> MentionsAny(Lower(description), CliKeywords)
    ensures r == PlatformBuilder ==> MentionsAny(Lower(description), PlatformKeywords)
    ensures r == IntegrationSpecialist ==> MentionsAny(Lower(description), IntegrationKeywords)
    ensures r == BackendMaster ==> MentionsAny(Lower(description), BackendKeywords) || Lower(taskType) == "feature"
    ensures r == QaSentinel ==>
              MentionsAny(Lower(description), QaKeywords) || Lower(taskType) == "bugfix" || Lower(taskType) == "refactor"
  {
    var d := Lower(description);
    if MentionsAny(d, ArchitectureKeywords) then LeadArchitect
    else if MentionsAny(d, BackendKeywords) then BackendMaster
    else if MentionsAny(d, CliKeywords) then CliArtisan
    else if MentionsAny(d, PlatformKeywords) then PlatformBuilder
    else if MentionsAny(d, IntegrationKeywords) then IntegrationSpecialist
    else if MentionsAny(d, QaKeywords) then QaSentinel
    else ByType(taskType)
  }

  /** `get_recommended_agent(context)`: routing of a temporary task of type "query". As
      that type has no fall-back of its own, the backend and QA pools are recommended
      only on one of their keywords. */
  function GetRecommendedAgent(context: string): (r: AgentType)
    ensures r == BackendMaster ==> MentionsAny(Lower(context), BackendKeywords)
    ensures r == QaSentinel ==> MentionsAny(Lower(context), QaKeywords)
  {
    assert Lower("query") == "query";
    AssignAgent(context, "query")
  }

  // ---------------------------------------------------------------------------
  // A reference definition: a generic decision list of (keywords, agent) rules.

  datatype Rule = Rule(keywords: seq<string>, agent: AgentType)

  /** The six rules, in the order the router tries them. */
  const RoutingRules: seq<Rule> := [
    Rule(ArchitectureKeywords, LeadArchitect),
    Rule(BackendKeywords, BackendMaster),
    Rule(CliKeywords, CliArtisan),
    Rule(PlatformKeywords, PlatformBuilder),
    Rule(IntegrationKeywords, IntegrationSpecialist),
    Rule(QaKeywords, QaSentinel)
  ]

  /** The agent of the first rule whose keywords `text` mentions. */
  function FirstMatch(rules: seq<Rule>, text: string): Option<AgentType>
  {
    if rules == [] then None
    else if MentionsAny(text, rules[0].keywords) then Some(rules[0].agent)
    else FirstMatch(rules[1..], text)
  }

  /** First match wins: the decision list answers rule `i`'s agent exactly when rule `i`
      matches and no earlier rule does, and answers nothing when no rule matches. */
  lemma {:induction false} FirstMatchWins(rules: seq<Rule>, text: string, i: int)
    requires 0 <= i < |rules|
    requires MentionsAny(text, rules[i].keywords)
    requires forall j :: 0 <= j < i ==> !MentionsAny(text, rules[j].keywords)
    ensures FirstMatch(rules, text) == Some(rules[i].agent)
  {
    if i > 0 {
      FirstMatchWins(rules[1..], text, i - 1);
    }
  }

  lemma {:induction false} FirstMatchNone(rules: seq<Rule>, text: string)
    ensures FirstMatch(rules, text).None? <==>
            forall j :: 0 <= j < |rules| ==> !MentionsAny(text, rules[j].keywords)
  {
    if rules != [] {
      FirstMatchNone(rules[1..], text);
      assert forall j :: 1 <= j < |rules| ==> rules[j] == rules[1..][j - 1];
    }
  }

  /** The router is the decision list over `RoutingRules`, with the type fall-back when
      no rule matches. */
  lemma AssignAgentIsDecisionList(description: string, taskType: string)
    ensures AssignAgent(description, taskType)
         == match FirstMatch(RoutingRules, Lower(description))
            case Some(a) => a
            case None => ByType(taskType)
  {
    var d := Lower(description);
    FirstMatchNone(RoutingRules, d);
    if MentionsAny(d, ArchitectureKeywords) {
      FirstMatchWins(RoutingRules, d, 0);
    } else if MentionsAny(d, BackendKeywords) {
      FirstMatchWins(RoutingRules, d, 1);
    } else if MentionsAny(d, CliKeywords) {
      FirstMatchWins(RoutingRules, d, 2);
    } else if MentionsAny(d, PlatformKeywords) {
      FirstMatchWins(RoutingRules, d, 3);
    } else if MentionsAny(d, IntegrationKeywords) {
      FirstMatchWins(RoutingRules, d, 4);
    } else if MentionsAny(d, QaKeywords) {
      FirstMatchWins(RoutingRules, d, 5);
    }
  }

  /** A description mentioning an architecture keyword always goes to the architect,
      whatever other keywords it contains and whatever the task type. */
  lemma ArchitectureAlwaysWins(description: string, taskType: string, k: int)
    requires 0 <= k < |ArchitectureKeywords|
    requires Contains(Lower(description), ArchitectureKeywords[k])
    ensures AssignAgent(description, taskType) == LeadArchitect
  {
  }

  /** Without any keyword, only the type decides: "feature" goes to the backend pool,
      "bugfix" and "refactor" (in any letter case) to QA, anything else to the architect. */
  lemma NoKeywordFallsBackOnType(description: string, taskType: string)
    requires forall j :: 0 <= j < |RoutingRules| ==> !MentionsAny(Lower(description), RoutingRules[j].keywords)
    ensures AssignAgent(description, taskType) == BackendMaster <==> Lower(taskType) == "feature"
    ensures AssignAgent(description, taskType) == QaSentinel <==>
            Lower(taskType) == "bugfix" || Lower(taskType) == "refactor"
    ensures AssignAgent(description, taskType) == LeadArchitect <==>
            Lower(taskType) !in {"feature", "bugfix", "refactor"}
  {
    assert !MentionsAny(Lower(description), RoutingRules[0].keywords);
    assert !MentionsAny(Lower(description), RoutingRules[1].keywords);
    assert !MentionsAny(Lower(description), RoutingRules[2].keywords);
    assert !MentionsAny(Lower(description), RoutingRules[3].keywords);
    assert !MentionsAny(Lower(description), RoutingRules[4].keywords);
    assert !MentionsAny(Lower(description), RoutingRules[5].keywords);
  }

  /** A recommendation is either the agent of the first matching keyword group or the
      architect: type "query" never reaches the backend or QA fall-back. */
  lemma RecommendationIsKeywordOrArchitect(context: string)
    ensures FirstMatch(RoutingRules, Lower(context)).Some? ==>
            GetRecommendedAgent(context) == FirstMatch(RoutingRules, Lower(context)).value
    ensures FirstMatch(RoutingRules, Lower(context)).None? ==>
            GetRecommendedAgent(context) == LeadArchitect
  {
    AssignAgentIsDecisionList(context, "query");
    assert Lower("query") == "query";
  }

  /** A design task is routed to the architect. */
  lemma DesignTaskGoesToArchitect()
    ensures AssignAgent("Design system architecture", "feature") == LeadArchitect
  {
    var d := Lower("Design system architecture");
    assert d[0..6] == "design";
    ContainsAt(d, "design", 0);
    assert ArchitectureKeywords[1] == "design";
  }
}
