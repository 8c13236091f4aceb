/** The request-scoped value objects that travel through the agent pipeline:
    the two closed enumerations, the user's input, an agent's configuration,
    the request handed to an agent and the response it returns. */
module Models {

  datatype Option<+T> = None | Some(value: T)

  /** The agent-type tags. Only the first three have an agent behind them;
      the dispatcher rejects the other two. */
  datatype AgentType = Caddie | Skill | Coach | Course | Data

  /** The string value behind each agent-type tag. */
  function AgentTypeValue(t: AgentType): string
  {
    match t
    case Caddie => "CaddieAgent"
    case Skill => "SkillAgent"
    case Coach => "CoachAgent"
    case Course => "CourseAgent"
    case Data => "DataAgent"
  }

  datatype InputType = File | Text | Image | Audio

  /** The string value behind each input-type tag. */
  function InputTypeValue(t: InputType): string
  {
    match t
    case File => "file"
    case Text => "text"
    case Image => "image"
    case Audio => "audio"
  }

  /** What a user submits: a kind tag, the text content and an optional path. */
  datatype UserInput = UserInput(inputType: InputType, content: string, filePath: Option<string>)

  /** An agent's configuration. The API keys are read from process settings
      on demand and are not part of the value. */
  datatype AgentConfig = AgentConfig(agentType: AgentType, userContext: string, configPath: Option<string>)

  /** The request an agent processes. The two optional precomputed analyses
      are remote-model output that no modelled agent reads; they are not modelled. */
  datatype AgentRequest = AgentRequest(userInput: UserInput, agentConfig: AgentConfig)

  /** Free-form metadata attached to a response, with values already rendered. */
  type Metadata = map<string, string>

  datatype AgentResponse = AgentResponse(agentType: AgentType, result: string, metadata: Option<Metadata>)

  /** Python's truth value of an optional string: false exactly for a missing
      value and for the empty string. */
  predicate IsPresent(s: Option<string>): (b: bool)
    ensures b <==> s != None && s != Some("")
  {
    s.Some? && s.value != ""
  }
}
