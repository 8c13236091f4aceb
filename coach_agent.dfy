/** The coaching agent: filter the content, refuse text without a golf keyword,
    otherwise consult the two player helpers and format a reply. */
module CoachAgent {

  import opened Models
  import opened Utils

  const InvalidGolfInput: string := "Invalid golf input"

  /** The two helper operations the agent may consult. */
  datatype StubCall = PlayerNotes | PlayerTips

  /** One processed request: the single response and the helper calls made, in order. */
  datatype Processed = Processed(response: AgentResponse, calls: seq<StubCall>)

  /** The notes helper returns a fixed text, whatever the input. */
  function GetPlayerNotes(u: UserInput): (r: string)
    ensures r == "Player notes"
  {
    "Player notes"
  }

  /** The tips helper returns a fixed text, whatever the input. */
  function GetPlayerTips(u: UserInput): (r: string)
    ensures r == "Player tips"
  {
    "Player tips"
  }

  /** `config` is the agent's own configuration, not the one inside the request. */
  function ProcessRequest(config: AgentConfig, request: AgentRequest): (p: Processed)
    ensures p.response.agentType == config.agentType
    ensures p.response.metadata == None
    ensures p.response.result == InvalidGolfInput <==> !IsValidGolfInput(Sanitize(request.userInput.content))
    ensures p.calls == [] <==> !IsValidGolfInput(Sanitize(request.userInput.content))
    ensures p.calls != [] ==> p.calls == [PlayerNotes, PlayerTips] && p.response.result == "Unknown: "
  {
    var sanitized := Sanitize(request.userInput.content);
    if !IsValidGolfInput(sanitized) then
      Processed(AgentResponse(config.agentType, InvalidGolfInput, None), [])
    else
      var notes := GetPlayerNotes(request.userInput);
      var tips := GetPlayerTips(request.userInput);
      var m := map["notes" := notes, "tips" := tips];
      FormatWithoutKeys(m);
      Processed(AgentResponse(config.agentType, FormatAgentResponse(m), None), [PlayerNotes, PlayerTips])
  }

  /** Only the filtered content matters: two requests whose content filters to
      the same text get the same response, whatever configuration they carry. */
  lemma ProcessDependsOnFilteredContent(config: AgentConfig, r1: AgentRequest, r2: AgentRequest)
    requires Sanitize(r1.userInput.content) == Sanitize(r2.userInput.content)
    ensures ProcessRequest(config, r1).response == ProcessRequest(config, r2).response
  {
  }

  /** Text that carries a keyword before filtering is never refused. */
  lemma ProcessAcceptsRawKeyword(config: AgentConfig, request: AgentRequest)
    requires IsValidGolfInput(request.userInput.content)
    ensures ProcessRequest(config, request).response
         == AgentResponse(config.agentType, "Unknown: ", None)
  {
    SanitizeKeepsGolfInput(request.userInput.content);
  }

  /** The keyword test reads the filtered text, so "pa#r", which has no keyword
      as written, is accepted. */
  lemma ProcessChecksFilteredContent(config: AgentConfig)
    ensures var request := AgentRequest(UserInput(Text, "pa#r", None), config);
            && !IsValidGolfInput(request.userInput.content)
            && ProcessRequest(config, request).response.result != InvalidGolfInput
  {
    SanitizeCanRevealKeyword();
  }

  /** "I need advice on my putt" names a keyword, so the helpers are consulted
      and the reply is the formatter's default text. */
  lemma ProcessPuttQuestion(config: AgentConfig)
    ensures ProcessRequest(config, AgentRequest(UserInput(Text, "I need advice on my putt", None), config))
         == Processed(AgentResponse(config.agentType, "Unknown: ", None), [PlayerNotes, PlayerTips])
  {
    PuttQuestionIsGolf();
    SanitizeKeepsGolfInput("I need advice on my putt");
  }

  /** The formatter looks up "agent_type" and "result", but the mapping built on
      the accepting path has only "notes" and "tips": whatever notes and tips
      it holds, the text is "Unknown: ", so the helpers' text and the agent
      type never reach the reply. */
  lemma AcceptedReplyDropsNotesAndTips(config: AgentConfig, request: AgentRequest)
    requires IsValidGolfInput(Sanitize(request.userInput.content))
    ensures forall notes, tips :: FormatAgentResponse(map["notes" := notes, "tips" := tips]) == "Unknown: "
    ensures var r := ProcessRequest(config, request).response.result;
            && !IsSubstring(GetPlayerNotes(request.userInput), r)
            && !IsSubstring(GetPlayerTips(request.userInput), r)
            && !IsSubstring(AgentTypeValue(config.agentType), r)
  {
  }

  /** Empty content is refused without consulting the helpers. */
  lemma ProcessRejectsEmpty(config: AgentConfig)
    ensures ProcessRequest(config, AgentRequest(UserInput(Text, "", None), config))
         == Processed(AgentResponse(config.agentType, InvalidGolfInput, None), [])
  {
    GolfInputRejectsEmpty();
  }

  /** "I need help" names no golf keyword, so it is refused without consulting
      the helpers. */
  lemma ProcessRejectsHelpRequest(config: AgentConfig)
    ensures ProcessRequest(config, AgentRequest(UserInput(Text, "I need help", None), config))
         == Processed(AgentResponse(config.agentType, InvalidGolfInput, None), [])
  {
    HelpRequestRejected();
  }

  /** The reply the agent evidently means to give: its agent type, then both sections. */
  function IntendedResult(config: AgentConfig, notes: string, tips: string): string
  {
    FormatAgentResponse(map[
      "agent_type" := AgentTypeValue(config.agentType),
      "result" := "{notes: " + notes + ", tips: " + tips + "}"])
  }

  function IntendedProcessRequest(config: AgentConfig, request: AgentRequest): (p: Processed)
    ensures p.response.agentType == config.agentType
    ensures p.response.result == InvalidGolfInput <==> !IsValidGolfInput(Sanitize(request.userInput.content))
    ensures p.calls == [] <==> !IsValidGolfInput(Sanitize(request.userInput.content))
  {
    var sanitized := Sanitize(request.userInput.content);
    if !IsValidGolfInput(sanitized) then
      Processed(AgentResponse(config.agentType, InvalidGolfInput, None), [])
    else
      var notes := GetPlayerNotes(request.userInput);
      var tips := GetPlayerTips(request.userInput);
      IntendedStartsWithTag(config, notes, tips);
      Processed(AgentResponse(config.agentType, IntendedResult(config, notes, tips), None), [PlayerNotes, PlayerTips])
  }

  lemma IntendedStartsWithTag(config: AgentConfig, notes: string, tips: string)
    ensures var r := IntendedResult(config, notes, tips);
            var tag := AgentTypeValue(config.agentType) + ":";
            && |tag| <= |r| && r[..|tag|] == tag
            && IsSubstring(notes, r) && IsSubstring(tips, r)
  {
    var v := AgentTypeValue(config.agentType);
    IntendedResultText(config, notes, tips);
    SectionsLayout(v, notes, tips);
  }

  lemma IntendedResultText(config: AgentConfig, notes: string, tips: string)
    ensures IntendedResult(config, notes, tips)
         == AgentTypeValue(config.agentType) + ": " + "{notes: " + notes + ", tips: " + tips + "}"
  {
  }

  /** Where the tag and the two sections sit in the corrected reply. */
  lemma SectionsLayout(v: string, notes: string, tips: string)
    ensures var r := v + ": " + "{notes: " + notes + ", tips: " + tips + "}";
            && |v| + 1 <= |r| && r[..|v| + 1] == v + ":"
            && IsSubstring(notes, r) && IsSubstring(tips, r)
  {
    var r := v + ": " + "{notes: " + notes + ", tips: " + tips + "}";
    assert r[|v| + 10..|v| + 10 + |notes|] == notes;
    assert OccursAt(notes, r, |v| + 10);
    var j := |v| + 10 + |notes| + 8;
    assert r[j..j + |tips|] == tips;
    assert OccursAt(tips, r, j);
  }

  /** On accepted input the intended reply carries the agent type and both sections. */
  lemma IntendedReplyHasSections(config: AgentConfig, request: AgentRequest)
    requires IsValidGolfInput(Sanitize(request.userInput.content))
    ensures var r := IntendedProcessRequest(config, request).response.result;
            var tag := AgentTypeValue(config.agentType) + ":";
            && |tag| <= |r| && r[..|tag|] == tag
            && IsSubstring(GetPlayerNotes(request.userInput), r)
            && IsSubstring(GetPlayerTips(request.userInput), r)
  {
    IntendedStartsWithTag(config, GetPlayerNotes(request.userInput), GetPlayerTips(request.userInput));
  }
}
