# DeepSearch agent core in Dafny

This project models the decision logic of the web-search agent in
`langchain_llama_web_rag/models/custom_agent.py`. The agent has three parts:

- **The output parser.** `CustomOutputParser.parse` reads the language model's
  text. If the text matches `^[\s\w]*(DeepSearch)\(([^\)]+)\)`, the parser
  returns an `AgentAction` that calls the `DeepSearch` tool. Otherwise it
  returns an `AgentFinish` that holds the stripped text as the answer.
- **The prompt builder.** `CustomPromptTemplate.format` fills `agent_template`.
  When no search has been made yet, it uses the "naive" slot values. After a
  search, it uses the "informed" values, built around the first step's
  observation.
- **The planner.** `CustomAgent.plan` always asks for a search of the user's
  input.

The modules are:

- `PyStr` (`pystr.dfy`): Python's whitespace class, the ASCII word class and
  `str.strip`, with the facts the parser needs (uniqueness of the stripped
  slice, idempotence, stripping a narrower set after a wider one).
- `Schema` (`schema.dfy`): `AgentAction`/`AgentFinish` as one datatype, an
  intermediate step, and a `Result` that carries the `KeyError` of a missing
  keyword argument.
- `OutputParser` (`output_parser.dfy`): the regular expression as an explicit
  recogniser, `MatchCall`. It is proved sound, complete and unique against a
  declarative description of the pattern, `MatchesAt`. The module also holds
  `Parse` and its round trip with the double-quoted call form.
- `PromptTemplate` (`prompt_template.dfy`): `str.format` over a template
  already split into literal text and fields (`Render`), and the imperative
  `Format`, which writes the four slot values into its copy of the keyword
  arguments and renders. `Format` is proved equal to the closed-form `Prompt`,
  and lemmas about `Prompt` locate its parts.
- `Agent` (`agent.dfy`): `Plan`, and how the planner, the parser and the
  prompt fit together.

The model follows the code as written. Points worth knowing:

- The role in the first prompt is `Naive robit`, as the code spells it.
- `strip('"')` removes every leading and trailing double quote, not only one
  enclosing pair.
- The suggested call form in the first prompt is `DeepSearch('search word')`,
  with single quotes. The parser keeps single quotes, so following the prompt
  literally gives a tool input that still has its quotes
  (`Agent.SuggestedCallKeepsQuotes`).
- The question guide `I have a question: ` is followed by the template's own
  `: `, so the first prompt reads `I have a question: : ...`.
- `re.DOTALL` has no effect, because the pattern contains no `.`. `[^\)]`
  already matches line breaks, so an argument may span lines.

## Model

| member | source | states |
|---|---|---|
| PyStr.CharacterClasses | langchain_llama_web_rag/models/custom_agent.py:75-86 | `\s` (the `str.isspace` set, also what `str.strip()` removes) and ASCII `\w` are disjoint, neither contains a parenthesis, and the ASCII blanks are whitespace |
| PyStr.KeptFrom | langchain_llama_web_rag/models/custom_agent.py:80 | the index where stripping from the left stops: every character before it is stripped, the one at it is kept |
| PyStr.KeptUntil | langchain_llama_web_rag/models/custom_agent.py:80 | the index where stripping from the right stops: every character from it on is stripped, the one before it is kept |
| PyStr.Strip | langchain_llama_web_rag/models/custom_agent.py:80 | `str.strip`: the result is a contiguous slice of the input; everything outside it is a stripped character; both its ends are kept characters |
| PyStr.StripUnique | langchain_llama_web_rag/models/custom_agent.py:80 | any slice whose outside is stripped and whose ends are kept is exactly the result of `strip` |
| PyStr.StripNothingToDrop | langchain_llama_web_rag/models/custom_agent.py:86-87 | a string with kept characters at both ends is left unchanged |
| PyStr.StripEnclosingPair | langchain_llama_web_rag/models/custom_agent.py:87 | one stripped character at each end around a kept core: exactly those two are removed |
| PyStr.StripIdempotent | langchain_llama_web_rag/models/custom_agent.py:86-87 | stripping twice equals stripping once |
| PyStr.StripNarrowerIsNoOp | langchain_llama_web_rag/models/custom_agent.py:86-87 | stripping a subset of the characters already stripped changes nothing |
| PyStr.StripKeepsCharacters | langchain_llama_web_rag/models/custom_agent.py:85-87 | every character of the stripped string occurs in the input |
| OutputParser.PrefixEnd | langchain_llama_web_rag/models/custom_agent.py:75 | the greedy `[\s\w]*` stops at the first character outside the class: all before it are in the class |
| OutputParser.IndexFrom | langchain_llama_web_rag/models/custom_agent.py:75 | the first occurrence of a character at or after a position: no occurrence before it, and the character is there unless the end was reached |
| OutputParser.MatchesAt | langchain_llama_web_rag/models/custom_agent.py:75 | the pattern as a decomposition of the text: a `[\s\w]*` prefix, `DeepSearch(`, group 2 free of `)`, then `)` |
| OutputParser.MatchCall | langchain_llama_web_rag/models/custom_agent.py:75 | a match has group 1 equal to `DeepSearch` and a non-empty group 2 containing no `)` |
| OutputParser.MatchCallComplete | langchain_llama_web_rag/models/custom_agent.py:75 | whenever the pattern matches the text at some position, the recogniser returns that match with its group 2 |
| OutputParser.MatchCallSound | langchain_llama_web_rag/models/custom_agent.py:75 | whatever the recogniser returns is a genuine match of the pattern |
| OutputParser.MatchUnique | langchain_llama_web_rag/models/custom_agent.py:75 | at most one decomposition of the text matches, so the groups are determined |
| OutputParser.NameHasNoSpace | langchain_llama_web_rag/models/custom_agent.py:75-85 | the name consists of word characters and no whitespace, so `.strip()` leaves group 1 unchanged |
| OutputParser.CleanArgument | langchain_llama_web_rag/models/custom_agent.py:86-87 | the cleaned argument is no longer than group 2 and starts and ends with no double quote |
| OutputParser.NoCloseParenAfterCleaning | langchain_llama_web_rag/models/custom_agent.py:86-87 | cleaning never brings in a `)` |
| OutputParser.CleanArgumentSkipsBlankStrip | langchain_llama_web_rag/models/custom_agent.py:86-87 | `.strip(" ")` after `.strip()` is a no-op: the tool input is the whitespace-stripped, then quote-stripped, argument |
| OutputParser.Parse | langchain_llama_web_rag/models/custom_agent.py:72-87 | the log is always the whole output; an action names `DeepSearch` and has no `)` in its input; a finish returns exactly the key `output` |
| OutputParser.ParseFinishIffNoMatch | langchain_llama_web_rag/models/custom_agent.py:75-84 | `parse` finishes exactly when the pattern matches nowhere |
| OutputParser.ParseNoMatch | langchain_llama_web_rag/models/custom_agent.py:78-82 | without a match, the answer is the output stripped of whitespace and the log is the output unchanged |
| OutputParser.ParseMatch | langchain_llama_web_rag/models/custom_agent.py:84-87 | with a match, the action calls `DeepSearch` on the cleaned text between `(` and the first following `)`, logging the whole output |
| OutputParser.ParseCallAfterWords | langchain_llama_web_rag/models/custom_agent.py:75-87 | words and whitespace before the call, and any text after it, are allowed; the action uses the cleaned argument |
| OutputParser.ParseForeignCharIsFinish | langchain_llama_web_rag/models/custom_agent.py:75-82 | when the first character outside `[\s\w]` is not `(`, the output is a final answer, whatever calls follow |
| OutputParser.ParseOtherNameIsFinish | langchain_llama_web_rag/models/custom_agent.py:75-82 | a `(` after words that do not end in `DeepSearch` gives a final answer |
| OutputParser.ParseEmptyCallIsFinish | langchain_llama_web_rag/models/custom_agent.py:75-82 | `DeepSearch()` is not a call: group 2 must be non-empty |
| OutputParser.CleanQuotedArgument | langchain_llama_web_rag/models/custom_agent.py:86-87 | a double-quoted argument loses exactly its enclosing quotes |
| OutputParser.CleanPlainArgument | langchain_llama_web_rag/models/custom_agent.py:86-87 | an argument with no whitespace and no double quote at its ends is kept unchanged |
| OutputParser.ParseQuotedCallRoundTrip | langchain_llama_web_rag/models/custom_agent.py:72-87 | round trip: any query without `)` and without a double quote at either end, written as `DeepSearch("query")`, parses back to exactly that query |
| OutputParser.ExampleQuoted | langchain_llama_web_rag/models/custom_agent.py:72-87 | `DeepSearch("Elon Musk news")` asks to search for `Elon Musk news` |
| OutputParser.ParseBareCall | langchain_llama_web_rag/models/custom_agent.py:75-87 | an unquoted argument without whitespace or double quotes at its ends is passed on as it is |
| OutputParser.ExampleAfterReasoning | langchain_llama_web_rag/models/custom_agent.py:72-87 | `  some reasoning DeepSearch(tesla stock)` asks to search for `tesla stock` |
| OutputParser.ExampleSingleQuotesKept | langchain_llama_web_rag/models/custom_agent.py:86-87 | single quotes around the argument are kept in the tool input |
| PromptTemplate.Render | langchain_llama_web_rag/models/custom_agent.py:50 | a reported `KeyError` names a key missing from the arguments |
| PromptTemplate.RenderOkIffFilled | langchain_llama_web_rag/models/custom_agent.py:50 | `str.format` succeeds exactly when every field has an argument; otherwise it reports the first field, left to right, that has none |
| PromptTemplate.RenderConcat | langchain_llama_web_rag/models/custom_agent.py:50 | rendering a concatenation renders the two parts in order: the first part's error wins, then the second's, otherwise the texts are joined |
| PromptTemplate.RenderErrorPropagates | langchain_llama_web_rag/models/custom_agent.py:50 | once a prefix of the template fails, the whole template fails with the same key |
| PromptTemplate.RenderAgentTemplate | langchain_llama_web_rag/models/custom_agent.py:14-50 | `agent_template` with its four slots set renders to the concatenation of its text and arguments, and reports `related_content` before `input` when they are missing |
| PromptTemplate.RenderMissingRelatedContent | langchain_llama_web_rag/models/custom_agent.py:14-50 | without `related_content` the render raises `KeyError('related_content')` |
| PromptTemplate.RenderMissingInput | langchain_llama_web_rag/models/custom_agent.py:14-50 | with `related_content` but without `input` the render raises `KeyError('input')` |
| PromptTemplate.RenderComplete | langchain_llama_web_rag/models/custom_agent.py:14-50 | with all arguments the render is the full concatenation |
| PromptTemplate.RenderOpening | langchain_llama_web_rag/models/custom_agent.py:14-15 | the first three pieces render to the opening sentence with the role |
| PromptTemplate.RenderCompleteHead | langchain_llama_web_rag/models/custom_agent.py:14-50 | the first six pieces render to the opening up to the background |
| PromptTemplate.ChooseSlots | langchain_llama_web_rag/models/custom_agent.py:30-44 | the slot values: the answer instruction is present exactly when no step exists, the background always ends a line, and after a search it holds the first observation right after the header |
| PromptTemplate.Prompt | langchain_llama_web_rag/models/custom_agent.py:14-50 | the closed form of the prompt is exactly what `str.format` renders from `agent_template`, the chosen slot values and the two caller arguments |
| PromptTemplate.Format | langchain_llama_web_rag/models/custom_agent.py:27-50 | `format` succeeds exactly when `related_content` and `input` are given, raises for `related_content` first, and otherwise returns `Prompt` of the steps and those two arguments, whatever slot values the caller passed |
| PromptTemplate.AnswerFormatOnlyBeforeSearch | langchain_llama_web_rag/models/custom_agent.py:30-44 | the answer instruction is non-empty exactly when no step exists, and then it contains `DeepSearch('search word')` |
| PromptTemplate.FillOpening | langchain_llama_web_rag/models/custom_agent.py:14-15 | the filled template opens with the role sentence and the related content |
| PromptTemplate.FillBackground | langchain_llama_web_rag/models/custom_agent.py:16-17 | the background follows the related content and a line break |
| PromptTemplate.FillQuestion | langchain_llama_web_rag/models/custom_agent.py:17-18 | the question guide follows the background, and is followed by `: `, the input and a blank line |
| PromptTemplate.FillEnding | langchain_llama_web_rag/models/custom_agent.py:18-21 | the filled template ends with the input, a blank line, the answer instruction and a line break |
| PromptTemplate.PromptOpening | langchain_llama_web_rag/models/custom_agent.py:14-42 | the prompt opens with the role (`Naive robit` before a search, `smart AI Assistant` after) followed by the related content |
| PromptTemplate.PromptWithoutSteps | langchain_llama_web_rag/models/custom_agent.py:18-34 | the first prompt carries `I have a question: `, then `: ` and the input, and ends with the answer instruction |
| PromptTemplate.PromptWithSteps | langchain_llama_web_rag/models/custom_agent.py:17-44 | after a search the background is the fixed header, the first observation and a line break, and the prompt ends with the input and no instruction |
| PromptTemplate.ObservationInPrompt | langchain_llama_web_rag/models/custom_agent.py:39-41 | the first step's observation occurs verbatim in the prompt, right after the background header |
| PromptTemplate.PromptUsesOnlyFirstObservation | langchain_llama_web_rag/models/custom_agent.py:40-41 | two step lists with the same first observation give the same prompt: later steps and the action are ignored |
| Agent.Plan | langchain_llama_web_rag/models/custom_agent.py:67-69 | the plan succeeds exactly when `input` is given, and is then a `DeepSearch` action on that input with an empty log; otherwise `KeyError('input')` |
| Agent.PlanIgnoresSteps | langchain_llama_web_rag/models/custom_agent.py:67-69 | the plan does not depend on the intermediate steps |
| Agent.ParsedToolIsRegistered | langchain_llama_web_rag/models/custom_agent.py:110-123 | every action the parser returns names the tool the agent registers |
| Agent.PlannedCallRoundTrip | langchain_llama_web_rag/models/custom_agent.py:69-87 | the planned search, written as a double-quoted call, parses back to the same tool and input |
| Agent.SuggestedCallKeepsQuotes | langchain_llama_web_rag/models/custom_agent.py:34-87 | the call the first prompt suggests parses to a search for `'search word'`, quotes included |

## Left out

- `DeepAgent` (`custom_agent.py:90-127`) and the `__main__` block (`custom_agent.py:130-157`) only wire LangChain objects together and call the executor. The loop of `AgentExecutor`, `LLMChain` and the stop sequence belong to LangChain, which is not part of this model.
- `CustomSearchTool._run` and `_arun` (`custom_agent.py:56-60`) call the web search or raise `NotImplementedError`. `models/custom_search.py` is not part of this model. Only the tool's name is modelled.
- `CustomLLM` (`models/custom_llm.py`) is not part of this model. The language model's text is an input to `Parse`.
- `download_model.py` is not part of this model.
- PyStr.IsWordChar: `\w` in a Python `str` pattern also matches non-ASCII letters and digits. The model restricts it to `[A-Za-z0-9_]`, because Unicode categories are not modelled. Whitespace (`\s`, `str.strip()`) uses the exact `str.isspace` set.
- PromptTemplate.Render: `str.format`'s parsing of braces, conversions and format specs is not modelled. `agent_template` contains only plain `{name}` fields, so it is given already split into text and fields.
- PromptTemplate.Format: the `KeyError` that `kwargs.pop("intermediate_steps")` raises when the steps are absent is not modelled, because the steps are a separate parameter. Keyword arguments are strings, so `str()` of non-string values and of the observation is not modelled.
- The `tools` field of `CustomPromptTemplate` and its `input_variables` (`custom_agent.py:25` and `custom_agent.py:112-114`) do not affect `format`, so they are left out. The `tool_name` argument the executor passes is an extra keyword argument that the template ignores, as `Render` does.
- `CustomAgent.input_keys` (`custom_agent.py:63-65`) is a constant list read by LangChain. Only its effect on `Plan`, which reads `input`, is modelled.
- OutputParser.Parse: its idempotence is not stated separately, because `Parse` is a function of its input alone.
