# Golf assistant agent pipeline — Dafny model

This project models the deterministic text pipeline around the language-model
calls of a golf-assistant web service:

- the text helpers in `backend/app/utils.py`:
  - the input filter `sanitize_input`, which keeps word characters, whitespace and `. , ! ?`;
  - the golf-keyword test `is_valid_golf_input`;
  - the reply formatter `format_agent_response`;
  - the entity extractor `extract_key_entities`;
- the coaching agent's `process_request` and its two constant helpers (`backend/app/agents/coach_agent.py`);
- the skill agent's constant reply (`backend/app/agents/skill_agent.py`);
- input validation and agent selection (`validate_user_input`, `get_agent` in `backend/app/api/dependencies.py`);
- the text block that the agent-type analysis builds from a user input (`backend/app/services/agent_type_analysis.py:15-18`).

Everything is pure: the Python functions become Dafny functions over
`string` (`seq<char>`), and the value objects of `backend/app/models.py`
become datatypes (`Models`). Raised `HTTPException`s become `Err` values of a
`Result` datatype. The agent class hierarchy becomes a closed datatype of
three variants (`Dependencies.Agent`).

Files and modules:

| file | module | models |
|---|---|---|
| `models.dfy` | `Models` | `AgentType`, `InputType`, `UserInput`, `AgentConfig`, `AgentRequest`, `AgentResponse` |
| `utils.dfy` | `Utils` | `backend/app/utils.py:122-146` |
| `coach_agent.dfy` | `CoachAgent` | `backend/app/agents/coach_agent.py` |
| `skill_agent.dfy` | `SkillAgent` | `backend/app/agents/skill_agent.py` |
| `dependencies.dfy` | `Dependencies` | `backend/app/api/dependencies.py:69-88` |
| `agent_type_analysis.dfy` | `AgentTypeAnalysis` | `backend/app/services/agent_type_analysis.py:15-18` |

Three behaviours of the code that a reader might not expect, all modelled as written:

- **Coach reply on accepted input.** The comment at
  `backend/app/agents/coach_agent.py:20-21` says the method should use
  `get_player_notes` and `get_player_tips`. The mapping built at line 29 has
  only the keys `notes` and `tips`, while `format_agent_response` reads
  `agent_type` and `result` (`backend/app/utils.py:129`). The reply is
  therefore always `"Unknown: "`. `CoachAgent.ProcessRequest` returns
  `"Unknown: "`, and the discrepancy is logged under Findings.
- **Which text the keyword test reads.** The keyword test at
  `backend/app/agents/coach_agent.py:23` reads the *filtered* text. Removing a
  character can join the pieces of a keyword, so `"pa#r"` is accepted
  (`CoachAgent.ProcessChecksFilteredContent`).
- **When a file path is required.** `backend/app/api/dependencies.py:86`
  requires a path only for `file` input. A path on any other input type is
  accepted and ignored.

## Model

| member | source | states |
|---|---|---|
| `Utils.Sanitize` | backend/app/utils.py:122-124 | every character of the result is a word character, whitespace or one of `. , ! ?`, and the result is no longer than the input |
| `Utils.SanitizeAppend` | backend/app/utils.py:124 | the filter works character by character: filtering a concatenation is the concatenation of the filtered parts |
| `Utils.SanitizeIsSubsequence` | backend/app/utils.py:124 | the result is a subsequence of the input (order kept, characters only deleted) |
| `Utils.SanitizeFixedPoint` | backend/app/utils.py:124 | the filter returns its input unchanged if and only if every character is allowed (the empty string included) |
| `Utils.SanitizeIdempotent` | backend/app/utils.py:124 | filtering twice gives the same text as filtering once |
| `Utils.SanitizeShrinks` | backend/app/utils.py:124 | the filter shortens the text exactly when a disallowed character is present |
| `Utils.Lower` | backend/app/utils.py:146 | `text.lower()`: the result equals the text up to letter case and has no upper-case letter left |
| `Utils.Contains` | backend/app/utils.py:146 | `keyword in text`: the left-to-right scan holds exactly when the keyword occurs in the text at some position |
| `Utils.AnyContains` | backend/app/utils.py:146 | `any(...)` over the keyword list holds exactly when some listed keyword occurs in the text |
| `Utils.IsValidGolfInput` | backend/app/utils.py:143-146 | the text is accepted if and only if one of the ten keywords is a substring of its lower-cased form |
| `Utils.GolfInputIgnoresCase` | backend/app/utils.py:146 | two texts equal up to letter case get the same verdict |
| `Utils.GolfInputRejectsEmpty` | backend/app/utils.py:146 | the empty text is rejected |
| `Utils.GolfInputMatchesInsideWords` | backend/app/utils.py:145-146 | matching is by plain substring, so "parent" is accepted through "par" |
| `Utils.KeywordsAreLetters` | backend/app/utils.py:145 | every keyword is spelled in lower-case ASCII letters |
| `Utils.KeywordOccurrenceAccepts` | backend/app/utils.py:143-146 | any occurrence of any keyword in the lower-cased text makes it accepted |
| `Utils.PuttQuestionIsGolf` | backend/app/utils.py:143-146 | "I need advice on my putt" is accepted |
| `Utils.PaHashRRejected` | backend/app/utils.py:143-146 | "pa#r" is rejected as written: no keyword occurs in it |
| `Utils.HelpRequestRejected` | backend/app/utils.py:122-146 | "I need help" passes the filter unchanged and is rejected: each keyword has a letter the text lacks |
| `Utils.AllowedRunSurvives` | backend/app/utils.py:124 | a stretch made only of allowed characters appears intact in the filtered text, right after the filtered text before it: filtering `a + seg + b` gives `Sanitize(a) + seg + Sanitize(b)`, and the lower-cased stretch sits at that position |
| `Utils.SanitizeKeepsGolfInput` | backend/app/utils.py:122-146 | text accepted before filtering is still accepted after filtering |
| `Utils.SanitizeCanRevealKeyword` | backend/app/utils.py:122-146 | the converse fails: "pa#r" is rejected, but it filters to "par", which is accepted |
| `Utils.FormatReadsTwoKeys` | backend/app/utils.py:126-129 | the formatted text depends only on the `agent_type` and `result` entries, with their defaults |
| `Utils.FormatWithoutKeys` | backend/app/utils.py:129 | a mapping with neither key is formatted as exactly "Unknown: " |
| `Utils.FormatAgentResponse` | backend/app/utils.py:126-129 | when the agent-type text (or its default "Unknown") has no colon, splitting the formatted text at the first ": " gives back that agent type and the result (or its default "") |
| `Utils.ExtractKeyEntities` | backend/app/utils.py:138-141 | at most five entities are returned |
| `Utils.ExtractKeyEntitiesMeans` | backend/app/utils.py:138-141 | the result is the first min(5, total) entities of the value lists concatenated in order, and each comes from one of those lists |
| `CoachAgent.ProcessRequest` | backend/app/agents/coach_agent.py:19-30 | one response carrying the agent's own agent type and no metadata. Its result is "Invalid golf input" exactly when the filtered content has no keyword, and then no helper is called. Otherwise the notes and tips helpers are called in that order and the result is "Unknown: " |
| `CoachAgent.ProcessDependsOnFilteredContent` | backend/app/agents/coach_agent.py:22-23 | requests whose contents filter to the same text get the same response |
| `CoachAgent.ProcessAcceptsRawKeyword` | backend/app/agents/coach_agent.py:22-30 | content that has a keyword before filtering is never refused, and the reply is "Unknown: " |
| `CoachAgent.ProcessChecksFilteredContent` | backend/app/agents/coach_agent.py:22-23 | the keyword test reads the filtered text: "pa#r" has no keyword as written and is still accepted |
| `CoachAgent.ProcessPuttQuestion` | backend/app/agents/coach_agent.py:19-30 | "I need advice on my putt" is accepted, both helpers are called, and the reply is "Unknown: " |
| `CoachAgent.ProcessRejectsEmpty` | backend/app/agents/coach_agent.py:22-24 | empty content is refused with "Invalid golf input" and no helper is called |
| `CoachAgent.ProcessRejectsHelpRequest` | backend/app/agents/coach_agent.py:22-24 | "I need help" is refused with "Invalid golf input" and no helper is called |
| `CoachAgent.GetPlayerNotes` | backend/app/agents/coach_agent.py:11-13 | the notes helper returns the fixed text "Player notes" for every input |
| `CoachAgent.GetPlayerTips` | backend/app/agents/coach_agent.py:15-17 | the tips helper returns the fixed text "Player tips" for every input |
| `CoachAgent.AcceptedReplyDropsNotesAndTips` | backend/app/agents/coach_agent.py:26-29 | a mapping with keys `notes` and `tips` formats to "Unknown: " whatever notes and tips it holds; so on accepted input the reply contains neither the notes, nor the tips, nor the agent-type value |
| `CoachAgent.IntendedProcessRequest` | backend/app/agents/coach_agent.py:19-30 | corrected agent: same refusal rule and agent type as the original, and the helpers are called only on accepted input |
| `CoachAgent.IntendedStartsWithTag` | backend/app/agents/coach_agent.py:29 | the corrected reply starts with the agent-type value and ":", and contains the notes and the tips |
| `CoachAgent.IntendedReplyHasSections` | backend/app/agents/coach_agent.py:19-30 | on accepted input the corrected agent's reply carries the agent-type tag and both sections |
| `SkillAgent.ProcessRequest` | backend/app/agents/skill_agent.py:11-17 | one response carrying the agent's own agent type, the lie analysis as result, and no metadata |
| `SkillAgent.ProcessIgnoresRequest` | backend/app/agents/skill_agent.py:11-17 | the reply does not depend on the request |
| `SkillAgent.AnalyzeGolfLie` | backend/app/agents/skill_agent.py:11-13 | the lie analysis returns the fixed text "Lie analysis" for every input |
| `Dependencies.GetAgent` | backend/app/api/dependencies.py:69-83 | succeeds exactly for CADDIE, COACH and SKILL and builds the matching agent variant. Its configuration carries the requested tag and the context "Golf assistant". COURSE and DATA fail with 400 "Invalid agent type" |
| `Dependencies.GetAgentRoundTrip` | backend/app/api/dependencies.py:69-81 | a built agent's variant and configured tag are the requested tag, and every variant is built from its own tag |
| `Dependencies.ValidateUserInput` | backend/app/api/dependencies.py:85-88 | fails with 400 "File path is required for file input type" exactly when the input type is file and the path is missing or empty; otherwise returns its argument unchanged |
| `Dependencies.ValidationIgnoresPathUnlessFile` | backend/app/api/dependencies.py:86 | for an input type other than file, any file path (missing, empty or set) passes and the input comes back unchanged |
| `Dependencies.ValidationIdempotent` | backend/app/api/dependencies.py:85-88 | validating an input that passed gives the same outcome again |
| `AgentTypeAnalysis.InputText` | backend/app/services/agent_type_analysis.py:15-18 | the text starts with the header (input type and content). It continues with "\nFile Path: " and the path if the path is present and non-empty, and is exactly the header otherwise |
| `AgentTypeAnalysis.Header` | backend/app/services/agent_type_analysis.py:16 | the always-present part starts with "Input Type: " and ends with "\nContent: " followed by the content verbatim, with nothing else beyond the rendered input type |
| `Models.IsPresent` | backend/app/api/dependencies.py:86 | Python truthiness of an optional path: false exactly for a missing path and for the empty string |
| `AgentTypeAnalysis.InputTextLayout` | backend/app/services/agent_type_analysis.py:16 | the text begins "Input Type: ", then the rendered input type, then "\nContent: ", then the content verbatim |
| `AgentTypeAnalysis.InputTextDeterminesPath` | backend/app/services/agent_type_analysis.py:16-18 | for a fixed input type and content, two texts are equal exactly when both paths are absent-or-empty or both are the same non-empty path |

## Findings

| source | as written | input that shows it | evidently intended | confidence | as-written member | corrected member |
|---|---|---|---|---|---|---|
| backend/app/agents/coach_agent.py:29 | the notes and tips go into a mapping under the keys `notes` and `tips`, which `format_agent_response` never reads, so every accepted reply is "Unknown: " | content "I need advice on my putt" | a reply that starts with the agent type and carries both the notes and the tips | high, not executed | `CoachAgent.AcceptedReplyDropsNotesAndTips` | `CoachAgent.IntendedReplyHasSections` |

The corrected reply is rendered as
`"<agent type value>: {notes: <notes>, tips: <tips>}"`. This layout is one
reading of the evident intent. `CoachAgent.ProcessRequest` stays the model of
the code as written. No other part of the model reads the coach's reply.

## Left out

- `Utils.Sanitize`: only the ASCII subset of Python's `\w` and `\s` is kept. Python also keeps non-ASCII letters, digits and spaces, which the model removes.
- `Utils.Lower`: lower-casing is ASCII-only. Python's `str.lower()` can map non-ASCII characters to ASCII letters (the Kelvin sign becomes "k"), which the model does not do.
- `AgentTypeAnalysis.InputText`: `f"{input_type}"` on a string enum renders differently across Python versions. The rendering is therefore a parameter `render`, and every property holds for any rendering (`Models.InputTypeValue` gives the enum values).
- `Utils.FormatAgentResponse`: the mapping values are `Any` and go through `str()`. The model takes string values.
- `Utils.ExtractKeyEntities`: the dictionary is an insertion-ordered list of (key, list) pairs, so the model does not enforce distinct keys. Keys do not affect the result.
- `calculate_sentiment_score` (`backend/app/utils.py:131-136`): floating-point arithmetic.
- The email, template and token helpers (`backend/app/utils.py:1-117`): file, SMTP and JWT I/O.
- The sentiment analysis, the language-model call of the agent-type analysis, and the range limits on their replies: these are network calls and validation of remote output.
- The caddie agent's `process_request`: it calls methods that do not exist and returns an incomplete response, so it has no behaviour to state. Only its construction by `GetAgent` is modelled.
- The abstract base agent is replaced by the closed datatype `Dependencies.Agent`.
- The HTTP endpoints, the mapping of every exception to status 500, CORS and startup hooks are framework wiring and are not part of this model.
- The database session and user authentication dependencies are not part of this model.
- The API keys in the agent configuration, and the settings dependency of `get_agent`, are read from process settings and are not modelled.
- The optional precomputed analyses in `AgentRequest` are not modelled: no modelled agent reads them.
- `async`/`await` is modelled as sequential evaluation. The coach's helper calls are recorded in order in `CoachAgent.Processed.calls`.
