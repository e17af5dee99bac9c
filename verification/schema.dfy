/** The values the agent exchanges with the agent framework: LangChain's
    `AgentAction` and `AgentFinish`, an intermediate step, and the `KeyError`
    that a missing keyword argument raises. */
module Schema {

  datatype AgentStep =
      /** `AgentAction(tool, tool_input, log)`: call a tool with one argument. */
    | Action(tool: string, toolInput: string, log: string)
      /** `AgentFinish(return_values, log)`: the agent's final answer. */
    | Finish(returnValues: map<string, string>, log: string)

  /** One completed tool call: the action taken and the text the tool returned. */
  datatype IntermediateStep = IntermediateStep(action: AgentStep, observation: string)

  /** A value, or the `KeyError` raised for the named missing key. */
  datatype Result<T> = Ok(value: T) | KeyError(key: string)
}
