/** `CustomAgent.plan`, the registered search tool, and how the planner, the
    first prompt and the output parser fit together. */
module Agent {
  import opened Schema
  import OutputParser
  import PromptTemplate

  /** `CustomSearchTool.name`, the one name in the agent's allowed tools. */
  const SearchToolName: string := "DeepSearch"

  /** `CustomAgent.plan`: whatever steps came before, call the search tool
      with the user's input and an empty log; reading `kwargs["input"]` raises
      `KeyError` when the input is absent. */
  function Plan(intermediateSteps: seq<IntermediateStep>, kwargs: map<string, string>): (r: Result<AgentStep>)
    ensures r.Ok? <==> "input" in kwargs
    ensures r.KeyError? ==> r.key == "input"
    ensures r.Ok? ==> r.value.Action? && r.value.tool == SearchToolName && r.value.log == ""
    ensures r.Ok? ==> r.value.toolInput == kwargs["input"]
  {
    if "input" in kwargs then Ok(Action("DeepSearch", kwargs["input"], "")) else KeyError("input")
  }

  /** The plan depends on the keyword arguments only, never on the steps. */
  lemma PlanIgnoresSteps(steps1: seq<IntermediateStep>, steps2: seq<IntermediateStep>, kwargs: map<string, string>)
    ensures Plan(steps1, kwargs) == Plan(steps2, kwargs)
  {
  }

  /** Every action the parser produces names the registered tool, so the
      executor's allowed-tools check always passes. */
  lemma ParsedToolIsRegistered(llmOutput: string)
    ensures OutputParser.Parse(llmOutput).Action? ==> OutputParser.Parse(llmOutput).tool == SearchToolName
  {
  }

  /** The planner and the parser agree: the search the planner asks for,
      written in the double-quoted call form, parses back to the same tool and
      the same tool input, provided the input has no `)` and no double quote
      at either end. */
  lemma PlannedCallRoundTrip(intermediateSteps: seq<IntermediateStep>, kwargs: map<string, string>)
    requires "input" in kwargs
    requires ')' !in kwargs["input"]
    requires kwargs["input"] == [] || (kwargs["input"][0] != '"' && kwargs["input"][|kwargs["input"]| - 1] != '"')
    ensures var action := Plan(intermediateSteps, kwargs).value;
      var parsed := OutputParser.Parse(OutputParser.QuotedCall(action.toolInput));
      parsed.Action? && parsed.tool == action.tool && parsed.toolInput == action.toolInput
  {
    OutputParser.ParseQuotedCallRoundTrip(kwargs["input"]);
  }

  /** The call form the first prompt suggests, `DeepSearch('search word')`,
      is recognised as a search, but its single quotes stay in the tool input. */
  lemma SuggestedCallKeepsQuotes(call: string)
    requires call == PromptTemplate.SuggestedCall
    ensures OutputParser.Parse(call) == Action(SearchToolName, "'search word'", call)
  {
    var a := call[|OutputParser.CallName| + 1..|call| - 1];
    assert a == "'search word'";
    assert OutputParser.IndexFrom(a, ')', 0) == |a|;
    assert call == [] + OutputParser.CallName + "(" + a + ")";
    OutputParser.ParseBareCall([], a);
  }
}
