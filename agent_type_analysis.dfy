/** The text block the agent-type analysis sends to the routing prompt.
    How a tag is rendered inside the text is passed in as `render`. */
module AgentTypeAnalysis {

  import opened Models

  /** The part that is always present: the rendered input type and the content, verbatim. */
  function Header(render: InputType -> string, u: UserInput): (r: string)
    ensures |r| == 22 + |render(u.inputType)| + |u.content|
    ensures r[..12] == "Input Type: "
    ensures r[|r| - |u.content| - 10..] == "\nContent: " + u.content
  {
    "Input Type: " + render(u.inputType) + "\nContent: " + u.content
  }

  const FilePathLabel: string := "\nFile Path: "

  function InputText(render: InputType -> string, u: UserInput): (r: string)
    ensures |Header(render, u)| <= |r| && r[..|Header(render, u)|] == Header(render, u)
    ensures IsPresent(u.filePath) ==> r[|Header(render, u)|..] == FilePathLabel + u.filePath.value
    ensures !IsPresent(u.filePath) ==> r == Header(render, u)
  {
    var text := Header(render, u);
    if IsPresent(u.filePath) then text + FilePathLabel + u.filePath.value else text
  }

  /** The text starts with the input-type label, then the content label and the content. */
  lemma InputTextLayout(render: InputType -> string, u: UserInput)
    ensures var r := InputText(render, u);
            var n := 12 + |render(u.inputType)|;
            && |r| >= n + 10 + |u.content|
            && r[..12] == "Input Type: "
            && r[12..n] == render(u.inputType)
            && r[n..n + 10] == "\nContent: "
            && r[n + 10..n + 10 + |u.content|] == u.content
  {
  }

  /** For a fixed type and content the text tells the file path apart, except
      that a missing path and an empty one read the same. */
  lemma InputTextDeterminesPath(render: InputType -> string, u1: UserInput, u2: UserInput)
    requires u1.inputType == u2.inputType && u1.content == u2.content
    ensures InputText(render, u1) == InputText(render, u2)
        <==> (IsPresent(u1.filePath) == IsPresent(u2.filePath)
              && (IsPresent(u1.filePath) ==> u1.filePath.value == u2.filePath.value))
  {
    var h := Header(render, u1);
    assert h == Header(render, u2);
    var r1, r2 := InputText(render, u1), InputText(render, u2);
    if r1 == r2 {
      if IsPresent(u1.filePath) && IsPresent(u2.filePath) {
        assert r1[|h| + |FilePathLabel|..] == u1.filePath.value;
        assert r2[|h| + |FilePathLabel|..] == u2.filePath.value;
      }
    }
  }
}
