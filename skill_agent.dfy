/** The skill agent: a fixed lie analysis wrapped as one response. */
module SkillAgent {

  import opened Models

  /** The lie analysis is a fixed text, whatever the input. */
  function AnalyzeGolfLie(u: UserInput): (r: string)
    ensures r == "Lie analysis"
  {
    "Lie analysis"
  }

  function ProcessRequest(config: AgentConfig, request: AgentRequest): (r: AgentResponse)
    ensures r.agentType == config.agentType && r.metadata == None
    ensures r.result == AnalyzeGolfLie(request.userInput)
  {
    var lieAnalysis := AnalyzeGolfLie(request.userInput);
    AgentResponse(config.agentType, lieAnalysis, None)
  }

  /** The reply does not depend on the request at all. */
  lemma ProcessIgnoresRequest(config: AgentConfig, r1: AgentRequest, r2: AgentRequest)
    ensures ProcessRequest(config, r1) == ProcessRequest(config, r2)
  {
  }
}
