# data-use agent core, modelled in Dafny

This project models the core of *data-use*, an LLM agent that works on spreadsheet data. It covers:

- **The agent loop** (`Agent.invoke`): open the conversation, then repeat reason → act (or
  answer) under a step ceiling. The model's tagged reply is parsed into an intent, and the intent
  is dispatched as a tool call through the registry.
- **The conversation state** (`AgentState`) and the **step counter** (`AgentStep`): mutable
  objects, modelled as Dafny classes.
- **The response parser** (`extract_agent_data`): five independent non-greedy tag searches, the
  decode-or-keep-raw fallback for the action input, and validation of the assembled intent.
- **The tool registry**: the name → descriptor map, the catalogue text shown to the model, and
  `execute`, the fault boundary around every tool call.
- **Column resolution** (`col_to_colidx`): an integer position, a header key, or spreadsheet
  letters A..ZZZ.
- **The table write tool** (`write_dataframe_tool`): validates a request, normalises the values
  into rows, and writes them cell by cell, in place, into a table held in a name-keyed registry.

| file | module | models |
|---|---|---|
| `common.dfy` | `Common` | `Option`, `Result` |
| `text.dfy` | `Text` | substring occurrence, `str.join`, `str(int)` |
| `values.dfy` | `Values` | Python values as literals and tool results: `str`, `repr`, iteration, type names |
| `agent_views.dfy` | `AgentViews` | `agent/views.py` |
| `response_parser.dfy` | `ResponseParser` | `agent/utils.py` |
| `tool_registry.dfy` | `ToolRegistry` | `registry/service.py`, and the `**params` call at `agent/service.py:84` |
| `agent_loop.dfy` | `AgentLoop` | `agent/service.py`, the Done Tool, and the observation prompt |
| `column_index.dfy` | `ColumnIndex` | `tools/utils.py` |
| `dataframe_write.dfy` | `DataframeWrite` | `write_dataframe_tool` in `test.py` |

The model is built as follows:
- The chat model is an oracle `(call number, messages) -> reply | exception`, and the agent
  counts its calls.
- Each tool is an oracle from keyword arguments to a returned value or a raised message.
- The prompt templates are opaque functions.
- `ast.literal_eval` is an oracle with three outcomes: a value, a ValueError or SyntaxError
  (the raw input is kept), or another exception.
- A Python exception raised inside a step is the `Option<string>` fault that the step method
  returns. `Invoke` turns such a fault into a failed result, as the `try` in `invoke` does.

Where the design documentation and the code disagree, the model follows the code:
- **Reply with only `<thought>`.** The design says this parses to an intent with no action. The
  code always attaches the `action` dict, and validation then requires its name and params, so
  the parse fails (`ResponseParser.NoActionNameIsRejected`).
- **Message window.** The design describes a bounded window with eviction. The code has no
  window: `update_state` only appends, and the `max_memory` argument is dropped by the pydantic
  model.
- **Consecutive failures.** The design has the loop count consecutive tool failures. The code
  never increments the counter, so the check at `agent/service.py:135` never fires
  (`AgentLoop.Agent.Invoke` keeps it at 0).
- **Step ceiling.** The design says `max_steps` reasoning iterations. The check
  `step_number >= max_steps - 1` allows at most `max_steps - 1` model calls.
- **Step counter across calls.** The step counter is never reset, so a second `invoke` on the
  same agent starts from the previous count.
- **Previous observation.** `reason` clears the previous observation (`update_state` overwrites
  every field), so the `previous_observation_prompt` that `action`/`answer` fill in always
  receives None.
- **Escaping exceptions.** The design says no exception escapes `invoke`. One does: the
  observation prompt rendered before the `try` raises (see Findings). Separately, a start column
  string that cannot be resolved raises out of the write tool rather than returning a message,
  since `col_to_colidx` is called outside the tool's `try` at `test.py:83`. `execute` then
  turns that exception into a failed tool result.
- **Write bounds.** The write tool checks only upper bounds. With a negative `step`, positions
  wrap around from the end of the row or column, as positional indexing does
  (`DataframeWrite.NegativeStepWraps`).
- **`column` axis with a flat list.** A flat list under `column` becomes one single-value row
  per value. The write loop then advances those rows along the table's columns, so the cells
  filled are the same as under `row` (`DataframeWrite.FlatListIgnoresAxis`).

## Model

| member | source | states |
|---|---|---|
| AgentViews.AgentState.constructor | agent/views.py:14-19 | a fresh state has no failures, an empty result, no intent, no messages and no previous observation |
| AgentViews.AgentState.InitState | agent/views.py:24-27 | resets the failure count to 0 and the result to "", and installs exactly the given messages; the intent and the previous observation are kept |
| AgentViews.AgentState.UpdateState | agent/views.py:29-33 | overwrites the result, the observation and the intent (absent arguments become None), appends the new messages after the old ones, and leaves the failure count alone |
| AgentViews.AgentStep.constructor | agent/views.py:36-38 | the counter starts at 0 under the given ceiling |
| AgentViews.AgentStep.IncrementStep | agent/views.py:43-44 | the step number rises by exactly one and the ceiling stays |
| AgentViews.CeilingAfterIncrements | agent/views.py:40-44 | once `is_last_step` holds, further increments keep it; from below it, exactly `max_steps - 1 - step` increments make it hold |
| ResponseParser.Strip | agent/utils.py:27 | `strip()` returns the slice of the input left after removing all leading and trailing whitespace; it is empty exactly when the input is all whitespace |
| ResponseParser.Search | agent/utils.py:25-27 | a tag's field is found exactly when its capture is; it lies inside the capture and neither starts nor ends with whitespace |
| ResponseParser.SearchFoundIff | agent/utils.py:25-26 | a tag is found exactly when an opening tag is followed, somewhere later, by a closing tag |
| ResponseParser.CaptureIsLeftmostShortest | agent/utils.py:25-27 | the capture starts at the leftmost opening tag and ends at the first closing tag after it (non-greedy, across newlines) |
| ResponseParser.CaptureIsBracketed | agent/utils.py:25 | the text holds the capture with its opening tag right before it and its closing tag right after it |
| ResponseParser.CaptureExcludesCloseTag | agent/utils.py:25-27 | a captured value, raw or stripped, never contains its own closing tag |
| ResponseParser.SearchStableUnderAppend | agent/utils.py:25-42 | a tag found in a text is found with the same value however much text follows, so each tag's search is independent of later tags |
| ResponseParser.ExtractAgentData | agent/utils.py:11-53 | a successful parse always carries an action |
| ResponseParser.ExtractAgentDataFields | agent/utils.py:21-53 | the parse succeeds iff both action tags are found and the input decodes to a dict; on success evaluate, memory and thought are exactly their tags' searches and the action is the stripped name with the decoded dict |
| ResponseParser.TerminalReplyNamesDoneTool | agent/views.py:21-22 | a parsed reply is terminal (`is_done`) iff its stripped `<action_name>` is exactly `Done Tool`; any other spelling, such as `done tool`, is not terminal |
| ResponseParser.NoActionNameIsRejected | agent/utils.py:37-53 | a reply without `<action_name>` (for instance one holding only a thought) fails validation |
| ResponseParser.UndecodableInputKeptRawThenRejected | agent/utils.py:42-53 | an input that does not decode is kept as the raw stripped string, which validation then rejects as not a dict |
| ColumnIndex.LabelPositions | tools/utils.py:14-15 | the positions of a key among the labels: all of them, in increasing order, and only matching ones |
| ColumnIndex.ColToColIdx | tools/utils.py:6-24 | an int is accepted iff it is a position; a key found once gives its position and a repeated key gives all its positions; a non-key alphabetic string longer than three letters raises the not-a-valid-column-name error of its upper-case form; a non-key non-alphabetic string and any other type raise; every returned position lies within the columns |
| ColumnIndex.LettersRoundTrip | tools/utils.py:17 | reading back the letters of a column number gives the number |
| ColumnIndex.ValueRoundTrip | tools/utils.py:17 | every non-empty run of capital letters is the letters of its own number (the letter encoding is a bijection) |
| ColumnIndex.ShortLettersBounded | tools/utils.py:17 | one to three letters give at most 18278 (ZZZ) |
| ColumnIndex.LettersResolve | tools/utils.py:16-20 | up to three letters that are no key resolve iff their number minus one is within the columns, and then to that position |
| ColumnIndex.LettersCaseInsensitive | tools/utils.py:16-17 | letters resolve the same in lower and upper case |
| ColumnIndex.NoTextLabels | tools/utils.py:14 | with no string labels, no string is found as a key |
| ColumnIndex.LetterExamples | tools/utils.py:16-20 | A is position 0, Z is 25, and "aa" is 26 |
| ColumnIndex.TwoPositionsShareLabel | tools/utils.py:14-15 | a key found at two positions means two columns carry the same label |
| ColumnIndex.UniqueLabelFoundOnce | tools/utils.py:14-15 | with distinct labels a key is found at most once |
| ColumnIndex.UniqueLabelsGivePosition | tools/utils.py:14-15 | with distinct labels every successful resolution is a single in-range position |
| ToolRegistry.BuildToolMap | registry/service.py:32-46 | the map's keys are exactly the listed names, and each key maps to a descriptor of that name |
| ToolRegistry.LaterToolWins | registry/service.py:39-46 | for a repeated name the later tool's descriptor is kept |
| ToolRegistry.LaterToolWinsEverywhere | registry/service.py:39-46 | every tool that no later tool renames is the one its name maps to |
| ToolRegistry.NewRegistry | registry/service.py:9-11 | the registry keeps the tool list; its map holds exactly the listed names, each mapped to a descriptor of that name, and every tool not followed by another of its name is the one registered |
| ToolRegistry.ToolPrompt | registry/service.py:13-30 | the not-registered message is given exactly for an unregistered name; a registered tool's block opens with a line naming the tool asked for |
| ToolRegistry.GetToolsPrompt | registry/service.py:47-58 | the catalogue opens with the `Available Tools:` heading (indented by eight spaces when tools are listed, as `dedent` leaves it) and contains the prompt of every listed tool |
| ToolRegistry.CatalogueInOrder | registry/service.py:54-58 | tool `k`'s prompt starts at the heading's length plus, for each tool before it, its block's length plus two (`JoinOffset`), so the offsets grow with `k` in list order; a blank line follows the block when a tool comes after it, and the last block is followed only by the final newline, which ends the text |
| ToolRegistry.ListedToolPrompt | registry/service.py:13-30 | a listed tool is always registered, so its prompt is its descriptor's block and never the not-registered message |
| ToolRegistry.CatalogueListsEveryTool | registry/service.py:47-58 | the catalogue contains the block of every tool that no later tool renames |
| ToolRegistry.DuplicateNameShowsLaterTool | registry/service.py:39-58 | with two tools of one name, both catalogue entries show the later tool |
| ToolRegistry.KwargsOf | agent/service.py:84 | `**params` is accepted iff every key is a string and none is `tool_name` |
| ToolRegistry.KwargsOfKeys | agent/service.py:84 | accepted params become keyword arguments with exactly their keys, and each key is bound to the value of the last entry carrying it |
| ToolRegistry.KwargsMapLastWins | agent/service.py:84 | in the dict built from the entries, each key holds the value of its last entry |
| ToolRegistry.Execute | registry/service.py:60-81 | an unregistered name fails with the not-registered message; otherwise it succeeds iff the tool returns a string or None (which becomes the content); a raised message becomes the error; the result is always well formed and nothing is raised |
| ToolRegistry.Observation | agent/service.py:85 | a failed result always yields an observation (its error) |
| ToolRegistry.RaisingToolIsIsolated | registry/service.py:77-81 | a tool that raises gives a failure whose observation is the tool's message |
| AgentLoop.Interpret | agent/service.py:67-68 | a failing model call is the fault; a parsed intent always carries an action |
| AgentLoop.PopAndFill | agent/service.py:76-79 | one message fewer, the prefix unchanged, and the new last message replaced by the filled prompt iff it is a user message |
| AgentLoop.DoneToolRegistered | agent/service.py:23-24 | `default_tools` opens with the Done Tool, so every agent's registry holds the name `Done Tool`, and unless another tool takes that name the registered tool is the Done Tool itself |
| AgentLoop.DoneToolReturnsAnswer | tools/service.py:8-13 | executing the Done Tool succeeds iff a string `answer` is given, and its content is that answer |
| AgentLoop.DoneActionGivesAnswer | agent/service.py:84 | a `Done Tool` action whose params bind `answer` to a string, in the last entry with that key, is answered with exactly that string |
| AgentLoop.Agent.constructor | agent/service.py:50-64 | the registry over the default tools (the Done Tool first) plus the additional tools, holding `Done Tool`; a fresh state, and a counter at 0 under `max_steps` |
| AgentLoop.Agent.Reason | agent/service.py:66-73 | one model call on the current messages; on success the intent is stored, the reply appended, and the result and previous observation cleared; on a fault the state is unchanged |
| AgentLoop.Agent.Action | agent/service.py:75-89 | drops the reply, fills the user message before it, and executes the intent. It appends the action and observation messages and stores the observation. Faults: bad keyword arguments, a None observation (`shorten`), and the observation prompt |
| AgentLoop.Agent.Answer | agent/service.py:91-101 | drops the reply, fills the user message, executes the terminal action, appends the answer message and stores the tool's content as the result; no model call |
| AgentLoop.Agent.Invoke | agent/service.py:103-143 | escapes iff the observation prompt reads the undeclared field, and then changes no call count, step, message, result, intent, observation or failure count. Below the ceiling, a failing first model call or parse ends it with `AgentResult(false, None, that error)`. At most `max_steps - 1 - step` model calls, one per step taken; the step never decreases; a ceiling exit reports "Reached maximum steps". The opening messages are kept and the failure count stays 0. A done result carries the Done Tool's content; any other exit carries an error and no content |
| AgentLoop.Agent.Iterate | agent/service.py:126-138 | one model call per pass; the step advances iff the loop goes on. A failed call or parse, bad keyword arguments, or a None observation each end the pass with that error; a terminal intent always ends it, done iff its keyword arguments are accepted, and then with the Done Tool's content |
| AgentLoop.Agent.Conclude | agent/service.py:130-133 | done iff the terminal intent's keyword arguments are accepted; a done result carries the Done Tool's content and no error; otherwise the result carries the keyword-argument error and no content |
| AgentLoop.Agent.Act | agent/service.py:134-138 | bad keyword arguments end the loop with their error; otherwise a None observation ends it with the `shorten` error, and any other observation advances the step; the consecutive-failure exit cannot happen |
| DataframeWrite.ParseAxis | test.py:74-75 | the axis is accepted iff it is "row", "column" or "matrix" |
| DataframeWrite.Normalize | test.py:90-98 | a scalar becomes one row (`[[v]]` for matrix); a flat list becomes one row for row and single-value rows for column; a matrix or nested list stays. The loop then visits a flat list's values exactly once each, in order, under row and column, and a scalar once under matrix |
| DataframeWrite.SingleValueRowsCells | test.py:96-97 | one single-value row per value visits the values themselves, in order |
| DataframeWrite.Check | test.py:71-88 | the checks run in the tool's order with their messages; proceeding implies a registered table, an integer start column and a start row inside it, and the normalised rows; only an unresolvable column string raises |
| DataframeWrite.Target | test.py:102-110 | the first element targets the start cell, and with a non-negative step no element targets a cell before it |
| DataframeWrite.TargetsDistinct | test.py:102-110 | with a positive step, distinct elements target distinct cells |
| DataframeWrite.Resume | test.py:99-115 | the write loop keeps the table's shape |
| DataframeWrite.WriteCell | test.py:113 | `df.iat[r, c] = val` sets that one cell and keeps every other |
| DataframeWrite.WriteLoop | test.py:99-115 | the nested loop leaves the table and stops exactly as the write-loop specification describes |
| DataframeWrite.WriteDataframeTool | test.py:65-118 | a stopped check returns its message and leaves the table unchanged; otherwise the table is rewritten in place as the write loop describes, and the message reports how the loop stopped (completion, out of bounds, or a caught exception) |
| DataframeWrite.UntargetedCellUnchanged | test.py:99-113 | a cell that no element targets keeps its value |
| DataframeWrite.CompletedStaysInTable | test.py:99-113 | a loop that completes met only iterable rows and only targets inside the table |
| DataframeWrite.NonNegativeStepFailsOnlyOnRows | test.py:99-115 | with a non-negative step from a valid start, a caught exception can only come from a row that is not iterable |
| DataframeWrite.NoLaterHit | test.py:102-113 | with a positive step from a valid start, no later element writes the cell an element targets |
| DataframeWrite.WrittenUpToHoldValues | test.py:99-113 | with a positive step from a valid start, an element whose target and every earlier target lie in the table is left in the cell it targets, whatever the loop does afterwards |
| DataframeWrite.WrittenCellsHoldValues | test.py:99-113 | with a positive step from a valid start, a completed write leaves every value in the cell it targets |
| DataframeWrite.StopsAtFirstOutOfRange | test.py:99-112 | with a non-negative step from a valid start, the loop stops on the first element whose target lies past the table and reports that target |
| DataframeWrite.OutOfBoundsIsFirstOutOfRange | test.py:99-112 | for any step, an out-of-bounds stop reports the target of the first element, in row-major order, whose target lies outside the table; every row before it is iterable |
| DataframeWrite.EarlierWritesKept | test.py:99-113 | with a positive step, the writes made before the first out-of-range target stay in their cells when the loop stops there |
| DataframeWrite.OutOfBoundsKeepsEarlierWrites | test.py:99-113 | with a positive step from a valid start, an out-of-bounds stop names the first out-of-range element's target, and every element before it holds its value in its target cell |
| DataframeWrite.FlatRowMatchesColumn | test.py:93-108 | writing a flat list as one row and as single-value column rows visits the same targets with the same values |
| DataframeWrite.FlatListIgnoresAxis | test.py:93-108 | a flat list under `row` and under `column` gives the same table and the same stop |
| DataframeWrite.NegativeStepWraps | test.py:102-113 | with step -1 the second value of a row wraps to the row's last cell rather than being refused |
| DataframeWrite.ScalarMatrixWritesStartCell | test.py:91-92 | a scalar under matrix writes exactly the start cell |
| DataframeWrite.ScalarRowIsNotIterable | test.py:91-115 | a non-iterable scalar under row or column raises before any write |

## Left out

- The chat model client, logging (`rich`, `termcolor`, `logging`), `print_response`, `read_file` and the `uuid` identifier: these are I/O or have no effect on the loop.
- The prompt template files: each prompt is an opaque function. The observation prompt is modelled only as far as whether it reads the undeclared field.
- `ast.literal_eval`: an oracle, because the grammar of Python literals is not modelled.
- The side effects and argument validation of the tools other than the Done Tool and the write tool: each tool is an oracle from keyword arguments to an outcome. The load, read, head, info and export tools perform file I/O through pandas. The default tools after the Done Tool reach the agent as the constructor's `otherDefaultTools` parameter, so the model does not fix their list.
- AgentLoop.DoneTool: its parameters text is a placeholder for the JSON schema langchain derives from the `Done` model; the schema's title, description and examples are not modelled. Extra keyword arguments are ignored, and langchain's handling of the fields its schema allows is not modelled.
- ToolRegistry.ToolBlock: fields are assumed to be single-line; a multi-line description or parameters text would change the margin `dedent` removes, and that is not modelled.
- ToolRegistry.GetToolsPrompt: `dedent` is modelled for single-line tool fields only: with tools listed the flush-left blocks leave no common margin, so the heading keeps its eight-space indent; with none the heading loses it. Indented lines inside a multi-line field would change this and are not modelled.
- ResponseParser.Capture: carries no contract of its own; what the regular expression captures is stated by the lemmas about it (`SearchFoundIff`, `CaptureIsLeftmostShortest`, `CaptureIsBracketed`, `CaptureExcludesCloseTag`, `SearchStableUnderAppend`).
- ColumnIndex.ColToColIdx: `isalpha` and `upper` are modelled for ASCII letters only, and pandas' own label equality (for example `1 == 1.0`) is value equality here. A bool parameter is returned as position 0 or 1, where the source returns the bool itself; pandas and the write tool use that bool as index 0 or 1, so only the text of a message that prints it could differ.
- DataframeWrite.Check: the text printed for a repeated key's non-integer location (a slice or a boolean mask) is approximate.
- DataframeWrite.WriteDataframeTool: `start_row` and `step` are integers, as the tool's signature declares. pandas dtype coercion on assignment (and any error it raises) is not modelled, so every assignment is accepted.
- DataframeWrite.Resume: the IndexError text for a position below minus the size follows numpy's wording, which is approximate.
- Exception and validation messages from Python and pydantic (the `**` keyword errors, "not iterable", validation reports) are approximate in their exact wording.
- `repr` of strings inside containers does not model quote escaping.
- The memory window and `max_memory`: the code has neither.
- Concurrency on the shared table registry: execution is single-threaded.

## Findings

| source | as written | input that shows it | evidently intended | confidence | as-written member | corrected member |
|---|---|---|---|---|---|---|
| prompt/service.py:80 | `observation_prompt` reads `agent_state.forgotten_memories`, which `AgentState` (agent/views.py:6-19) does not declare; it is first called at agent/service.py:106, outside the `try`, so `invoke` raises AttributeError for every query | any query on a fresh agent | the prompt renders from declared state only, and `invoke` runs its loop and always returns a result | not executed | AgentLoop.Agent.Invoke | AgentLoop.Agent.Invoke |

The observation prompt is the `ObservationPrompt` datatype. `ReadsForgottenMemories` is the prompt as written, and `Invoke`'s contract shows that with it every call escapes with the AttributeError before changing any state. `Renders` is the corrected prompt; with it `Invoke` never escapes, and its other clauses describe the loop that runs.
