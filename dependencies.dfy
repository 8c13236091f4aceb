/** Request-level dependencies: checking a user's input and choosing the agent
    for an agent-type tag. Failures are the HTTP errors they are raised as. */
module Dependencies {

  import opened Models

  datatype HttpError = HttpError(statusCode: int, detail: string)

  datatype Result<+T> = Ok(value: T) | Err(error: HttpError)

  const BadRequest: int := 400

  const GolfAssistant: string := "Golf assistant"

  /** The three agent variants, each holding its configuration. */
  datatype Agent = CaddieAgent(config: AgentConfig) | CoachAgent(config: AgentConfig) | SkillAgent(config: AgentConfig)

  /** The tags that have an agent behind them. */
  predicate HasAgent(t: AgentType)
  {
    t == Caddie || t == Coach || t == Skill
  }

  function GetAgent(agentType: AgentType): (r: Result<Agent>)
    ensures r.Ok? <==> HasAgent(agentType)
    ensures r.Err? ==> r.error == HttpError(BadRequest, "Invalid agent type")
    ensures r.Ok? ==> r.value.config == AgentConfig(agentType, GolfAssistant, None)
    ensures r.Ok? ==> (r.value.CaddieAgent? <==> agentType == Caddie)
    ensures r.Ok? ==> (r.value.CoachAgent? <==> agentType == Coach)
    ensures r.Ok? ==> (r.value.SkillAgent? <==> agentType == Skill)
  {
    var config := AgentConfig(agentType, GolfAssistant, None);
    if agentType == Caddie then Ok(CaddieAgent(config))
    else if agentType == Coach then Ok(CoachAgent(config))
    else if agentType == Skill then Ok(SkillAgent(config))
    else Err(HttpError(BadRequest, "Invalid agent type"))
  }

  /** The tag an agent variant stands for. */
  function KindOf(a: Agent): AgentType
  {
    match a
    case CaddieAgent(_) => Caddie
    case CoachAgent(_) => Coach
    case SkillAgent(_) => Skill
  }

  /** Every agent the dispatcher builds is built for the tag it was asked for,
      and every variant is reachable from its own tag. */
  lemma GetAgentRoundTrip(t: AgentType, a: Agent)
    ensures GetAgent(t).Ok? ==> KindOf(GetAgent(t).value) == t == GetAgent(t).value.config.agentType
    ensures GetAgent(KindOf(a)).Ok? && KindOf(GetAgent(KindOf(a)).value) == KindOf(a)
  {
  }

  function ValidateUserInput(u: UserInput): (r: Result<UserInput>)
    ensures r.Err? <==> u.inputType == File && !IsPresent(u.filePath)
    ensures r.Err? ==> r.error == HttpError(BadRequest, "File path is required for file input type")
    ensures r.Ok? ==> r.value == u
  {
    if u.inputType == File && !IsPresent(u.filePath) then
      Err(HttpError(BadRequest, "File path is required for file input type"))
    else
      Ok(u)
  }

  /** For anything but a file, the file path has no bearing on the outcome. */
  lemma ValidationIgnoresPathUnlessFile(u: UserInput, p: Option<string>)
    requires u.inputType != File
    ensures ValidateUserInput(u.(filePath := p)) == Ok(u.(filePath := p))
  {
  }

  /** Validation is a pure check: re-validating what passed passes again unchanged. */
  lemma ValidationIdempotent(u: UserInput)
    ensures ValidateUserInput(u).Ok? ==> ValidateUserInput(ValidateUserInput(u).value) == ValidateUserInput(u)
  {
  }
}
