/**
 * The orchestrator: `Agent.invoke` runs the bounded reason -> act / answer loop over the
 * conversation state. The language model is an oracle from (call number, messages) to a reply,
 * the tools are oracles inside the registry, and the prompt templates are opaque functions.
 * A Python exception raised inside a step is the `Option<string>` fault a step method returns.
 */
module AgentLoop {
  import opened Common
  import opened Values
  import opened AgentViews
  import opened ResponseParser
  import opened ToolRegistry

  /** A reply of the chat model: its text, or the message of the exception its call raised. */
  datatype LlmReply = Replied(text: string) | Failed(error: string)

  /**
   * The observation prompt. As written it reads `agent_state.forgotten_memories`, a field the
   * state does not declare, so rendering it raises; `Renders` is the prompt without that read.
   */
  datatype ObservationPrompt =
    | ReadsForgottenMemories
    | Renders(render: (int, int, Option<string>) -> string)

  /** The four prompt templates (their file contents are not part of this model). */
  datatype Prompts = Prompts(
    system: (seq<string>, string, Option<string>, int) -> string,
    action: AgentData -> string,
    previousObservation: Option<string> -> string,
    observation: ObservationPrompt,
    answer: (AgentData, Option<string>) -> string)

  /** What `invoke` does: return a result, or let an exception escape to its caller. */
  datatype InvokeOutcome = Finished(result: AgentResult) | Escaped(error: string)

  const ForgottenMemoriesError: string := "'AgentState' object has no attribute 'forgotten_memories'"
  const MaxStepsError: string := "Reached maximum steps"
  const ConsecutiveFailuresError: string := "Consecutive failures exceeded"

  /** `observation_prompt` for the given step counter and tool observation. */
  function RenderObservation(p: ObservationPrompt, steps: int, maxSteps: int, observation: Option<string>)
    : (r: Result<string>)
    ensures r.Err? <==> p.ReadsForgottenMemories?
    ensures r.Err? ==> r.error == ForgottenMemoriesError
  {
    match p
    case ReadsForgottenMemories => Err(ForgottenMemoriesError)
    case Renders(render) => Ok(render(steps, maxSteps, observation))
  }

  /**
   * What one model call yields for `reason`: the exception of a failed call, or the parse of
   * the reply's text. A parsed intent always carries an action.
   */
  function Interpret(reply: LlmReply, decode: string -> Decoded): (r: Result<AgentData>)
    ensures reply.Failed? ==> r == Err(reply.error)
    ensures r.Ok? ==> r.value.action.Some?
  {
    if reply.Failed? then Err(reply.error) else ExtractAgentData(reply.text, decode)
  }

  /**
   * The message list after `messages.pop()` and the rewrite of the new last message: a user
   * message is replaced by `filled`, any other message stays.
   */
  function PopAndFill(msgs: seq<Message>, filled: string): (r: seq<Message>)
    requires |msgs| >= 2
    ensures |r| == |msgs| - 1
    ensures forall k :: 0 <= k < |r| - 1 ==> r[k] == msgs[k]
    ensures r[|r| - 1] == if msgs[|msgs| - 2].Human? then Human(filled) else msgs[|msgs| - 2]
  {
    var popped := msgs[..|msgs| - 1];
    popped[|popped| - 1 := if popped[|popped| - 1].Human? then Human(filled) else popped[|popped| - 1]]
  }

  /** The message of `textwrap.shorten(None, ...)`. */
  const ShortenNoneError: string := "'NoneType' object has no attribute 'strip'"

  /** The Done Tool: it returns its `answer` argument, which must be a string. */
  function DoneTool(): (t: Tool)
    ensures t.name == DoneToolName
  {
    Tool(DoneToolName, "表明任务已完成的工具。", "{'answer': {'type': 'string'}}",
         (kwargs: map<string, Value>) =>
           if "answer" !in kwargs then Raised(ValidationMessage("Done", ["answer\n  Field required"]))
           else if !kwargs["answer"].VStr? then
             Raised(ValidationMessage("Done", ["answer\n  Input should be a valid string"]))
           else Returned(kwargs["answer"]))
  }

  /**
   * The module's `default_tools`: the Done Tool first, then the other default tools (the
   * human and spreadsheet tools, whose bodies are not part of this model).
   */
  function DefaultTools(others: seq<Tool>): seq<Tool>
  {
    [DoneTool()] + others
  }

  /**
   * Every agent registers the Done Tool's name, and unless another tool takes that name the
   * registered tool is the Done Tool itself.
   */
  lemma DoneToolRegistered(others: seq<Tool>, additional: seq<Tool>)
    ensures DoneToolName in NewRegistry(DefaultTools(others) + additional).toolRegistry
    ensures (forall l :: 0 <= l < |others + additional| ==> (others + additional)[l].name != DoneToolName)
      ==> NewRegistry(DefaultTools(others) + additional).toolRegistry[DoneToolName] == DoneTool()
  {
    var tools := DefaultTools(others) + additional;
    assert tools[0] == DoneTool();
    if forall l :: 0 <= l < |others + additional| ==> (others + additional)[l].name != DoneToolName {
      assert forall l :: 1 <= l < |tools| ==> tools[l] == (others + additional)[l - 1];
      LaterToolWins(tools, 0);
    }
  }

  /**
   * With the Done Tool first among the tools and no other tool of its name, executing it with a
   * string `answer` succeeds with that answer as content, and without one it fails.
   */
  lemma DoneToolReturnsAnswer(tools: seq<Tool>, kwargs: map<string, Value>)
    requires |tools| > 0 && tools[0] == DoneTool()
    requires forall k :: 1 <= k < |tools| ==> tools[k].name != DoneToolName
    ensures Execute(NewRegistry(tools), DoneToolName, kwargs).isSuccess
      <==> "answer" in kwargs && kwargs["answer"].VStr?
    ensures "answer" in kwargs && kwargs["answer"].VStr? ==>
      Execute(NewRegistry(tools), DoneToolName, kwargs).content == Some(kwargs["answer"].s)
  {
    LaterToolWins(tools, 0);
  }

  /**
   * A `Done Tool` action whose params dict binds `answer` to a string, in the last entry with
   * that key, is answered with exactly that string.
   */
  lemma DoneActionGivesAnswer(tools: seq<Tool>, params: seq<(Value, Value)>, k: int)
    requires |tools| > 0 && tools[0] == DoneTool()
    requires forall l :: 1 <= l < |tools| ==> tools[l].name != DoneToolName
    requires KwargsOf(params).Ok?
    requires 0 <= k < |params| && LastOfKey(params, k)
    requires params[k].0 == VStr("answer") && params[k].1.VStr?
    ensures Execute(NewRegistry(tools), DoneToolName, KwargsOf(params).value).isSuccess
    ensures Execute(NewRegistry(tools), DoneToolName, KwargsOf(params).value).content == Some(params[k].1.s)
  {
    KwargsOfKeys(params);
    DoneToolReturnsAnswer(tools, KwargsOf(params).value);
  }

  class Agent {
    const registry: Registry
    const instructions: seq<string>
    const llm: (nat, seq<Message>) -> LlmReply
    const decode: string -> Decoded
    const prompts: Prompts
    const filePath: Option<string>
    const agentState: AgentState
    const agentStep: AgentStep
    /** How many times the model has been called; the next call's number. */
    var llmCalls: nat
    /** The terminal action the last `answer` dispatched. */
    ghost var answered: Option<Action>

    ghost predicate Valid()
      reads this, agentState
    {
      agentState.Valid()
    }

    /**
     * `__init__`: the registry over the default tools (the Done Tool and `otherDefaultTools`)
     * and the additional tools, fresh state and counter.
     */
    constructor (instructions: seq<string>, otherDefaultTools: seq<Tool>, additionalTools: seq<Tool>,
                 llm: (nat, seq<Message>) -> LlmReply, decode: string -> Decoded, prompts: Prompts,
                 maxSteps: int, filePath: Option<string>)
      ensures registry == NewRegistry(DefaultTools(otherDefaultTools) + additionalTools)
      ensures DoneToolName in registry.toolRegistry
      ensures this.instructions == instructions && this.llm == llm && this.decode == decode
      ensures this.prompts == prompts && this.filePath == filePath
      ensures fresh(agentState) && fresh(agentStep)
      ensures agentState.consecutiveFailures == 0 && agentState.result == Some("")
      ensures agentState.agentData == None && agentState.messages == []
      ensures agentState.previousObservation == None
      ensures agentStep.stepNumber == 0 && agentStep.maxSteps == maxSteps
      ensures llmCalls == 0 && answered == None
      ensures Valid()
    {
      registry := NewRegistry(DefaultTools(otherDefaultTools) + additionalTools);
      DoneToolRegistered(otherDefaultTools, additionalTools);
      this.instructions := instructions;
      this.llm := llm;
      this.decode := decode;
      this.prompts := prompts;
      this.filePath := filePath;
      agentState := new AgentState();
      agentStep := new AgentStep(maxSteps);
      llmCalls := 0;
      answered := None;
    }

    /**
     * `reason`: call the model on the messages, parse its reply, and store the intent with the
     * reply appended; this clears the result and the previous observation. A failing call or
     * parse leaves the state as it was.
     */
    method Reason() returns (fault: Option<string>)
      requires Valid()
      modifies this, agentState
      ensures Valid()
      ensures llmCalls == old(llmCalls) + 1 && answered == old(answered)
      ensures agentState.consecutiveFailures == old(agentState.consecutiveFailures)
      ensures
        var reply := llm(old(llmCalls), old(agentState.messages));
        var parsed := Interpret(reply, decode);
        if parsed.Err? then fault == Some(parsed.error)
        else (
          && fault.None?
          && agentState.agentData == Some(parsed.value)
          && agentState.messages == old(agentState.messages) + [AI(reply.text)]
          && agentState.result.None? && agentState.previousObservation.None?)
      ensures fault.Some? ==>
        && agentState.messages == old(agentState.messages)
        && agentState.agentData == old(agentState.agentData)
        && agentState.result == old(agentState.result)
        && agentState.previousObservation == old(agentState.previousObservation)
      ensures fault.None? ==>
        && agentState.agentData.Some?
        && |agentState.messages| == |old(agentState.messages)| + 1
        && agentState.messages[..|old(agentState.messages)|] == old(agentState.messages)
    {
      var reply := llm(llmCalls, agentState.messages);
      llmCalls := llmCalls + 1;
      var parsed := Interpret(reply, decode);
      if parsed.Err? {
        return Some(parsed.error);
      }
      agentState.UpdateState(Some(parsed.value), None, None, Some([AI(reply.text)]));
      fault := None;
    }

    /**
     * `action`: drop the raw reply, fill the previous observation into the user message before
     * it, run the intended tool, and append the action message and the observation message;
     * the observation becomes the tool's content on success and its error on failure.
     */
    method Action() returns (fault: Option<string>)
      requires Valid()
      requires |agentState.messages| >= 2 && agentState.agentData.Some?
      modifies agentState
      ensures Valid()
      ensures agentState.consecutiveFailures == old(agentState.consecutiveFailures)
      ensures
        var d := old(agentState.agentData).value;
        var filled := PopAndFill(old(agentState.messages), prompts.previousObservation(old(agentState.previousObservation)));
        var kwargs := KwargsOf(d.action.value.params);
        if kwargs.Err? then
          fault == Some(kwargs.error) && agentState.messages == filled
        else
          var tr := Execute(registry, d.action.value.name, kwargs.value);
          var obs := Observation(tr);
          var rendered := RenderObservation(prompts.observation, agentStep.stepNumber, agentStep.maxSteps, obs);
          if obs.None? then fault == Some(ShortenNoneError) && agentState.messages == filled
          else (
            if rendered.Err? then fault == Some(rendered.error) && agentState.messages == filled
            else (
              && fault.None?
              && agentState.messages == filled + [AI(prompts.action(d)), Human(rendered.value)]
              && agentState.previousObservation == obs
              && agentState.agentData.None? && agentState.result.None?))
      ensures fault.Some? ==>
        && agentState.agentData == old(agentState.agentData)
        && agentState.result == old(agentState.result)
        && agentState.previousObservation == old(agentState.previousObservation)
    {
      var filled := prompts.previousObservation(agentState.previousObservation);
      agentState.messages := PopAndFill(agentState.messages, filled);
      var d := agentState.agentData.value;
      var aiMessage := AI(prompts.action(d));
      var kwargs := KwargsOf(d.action.value.params);
      if kwargs.Err? {
        return Some(kwargs.error);
      }
      var toolResult := Execute(registry, d.action.value.name, kwargs.value);
      var observation := Observation(toolResult);
      if observation.None? {
        return Some(ShortenNoneError);
      }
      var prompt := RenderObservation(prompts.observation, agentStep.stepNumber, agentStep.maxSteps, observation);
      if prompt.Err? {
        return Some(prompt.error);
      }
      agentState.UpdateState(None, observation, None, Some([aiMessage, Human(prompt.value)]));
      fault := None;
    }

    /**
     * `answer`: drop the raw reply, fill the previous observation, run the terminal action as
     * a tool, append the answer message, and store the tool's content as the result.
     */
    method Answer() returns (fault: Option<string>)
      requires Valid()
      requires |agentState.messages| >= 2 && agentState.agentData.Some?
      modifies this, agentState
      ensures Valid()
      ensures agentState.consecutiveFailures == old(agentState.consecutiveFailures)
      ensures answered == Some(old(agentState.agentData).value.action.value) && llmCalls == old(llmCalls)
      ensures
        var d := old(agentState.agentData).value;
        var filled := PopAndFill(old(agentState.messages), prompts.previousObservation(old(agentState.previousObservation)));
        var kwargs := KwargsOf(d.action.value.params);
        if kwargs.Err? then
          fault == Some(kwargs.error) && agentState.messages == filled
          && agentState.agentData == old(agentState.agentData)
          && agentState.result == old(agentState.result)
          && agentState.previousObservation == old(agentState.previousObservation)
        else
          var tr := Execute(registry, d.action.value.name, kwargs.value);
          fault.None?
          && agentState.messages == filled + [AI(prompts.answer(d, tr.content))]
          && agentState.result == tr.content
          && agentState.agentData.None? && agentState.previousObservation.None?
    {
      var filled := prompts.previousObservation(agentState.previousObservation);
      agentState.messages := PopAndFill(agentState.messages, filled);
      var d := agentState.agentData.value;
      answered := Some(d.action.value);
      var kwargs := KwargsOf(d.action.value.params);
      if kwargs.Err? {
        return Some(kwargs.error);
      }
      var toolResult := Execute(registry, d.action.value.name, kwargs.value);
      var aiMessage := AI(prompts.answer(d, toolResult.content));
      agentState.UpdateState(None, None, toolResult.content, Some([aiMessage]));
      fault := None;
    }

    /** The system message and the query message `invoke` opens the conversation with. */
    function Opening(query: string): (opening: seq<Message>)
      reads this, agentStep
      ensures |opening| == 2 && opening[0].System? && opening[1].Human?
    {
      [System(prompts.system(instructions, GetToolsPrompt(registry), filePath, agentStep.maxSteps)),
       Human("<user_query>" + query + "</user_query>")]
    }

    /**
     * `invoke`: open the conversation, then loop. Each iteration first stops at the step
     * ceiling without calling the model, otherwise reasons once and either answers (the
     * terminal action) or acts and advances the step. A fault inside the loop becomes a
     * failed result; the observation prompt rendered before the loop escapes as written.
     */
    method Invoke(query: string) returns (outcome: InvokeOutcome)
      requires Valid()
      modifies this, agentState, agentStep
      ensures Valid()
      ensures agentStep.maxSteps == old(agentStep.maxSteps)
      // The observation prompt as written escapes before anything changes.
      ensures outcome.Escaped? <==> prompts.observation.ReadsForgottenMemories?
      ensures outcome.Escaped? ==>
        && outcome.error == ForgottenMemoriesError
        && llmCalls == old(llmCalls) && agentStep.stepNumber == old(agentStep.stepNumber)
        && agentState.messages == old(agentState.messages)
        && agentState.result == old(agentState.result)
        && agentState.agentData == old(agentState.agentData)
        && agentState.previousObservation == old(agentState.previousObservation)
        && agentState.consecutiveFailures == old(agentState.consecutiveFailures)
      // Below the ceiling the first model call sees the opening and the first observation
      // prompt; a failure of that call or of its parse is the result's error.
      ensures prompts.observation.Renders? && !old(agentStep.IsLastStep()) ==>
        var first := Opening(query)
          + [Human(prompts.observation.render(old(agentStep.stepNumber), agentStep.maxSteps, Some("No Action")))];
        var parsed := Interpret(llm(old(llmCalls), first), decode);
        parsed.Err? ==> outcome == Finished(AgentResult(false, None, Some(parsed.error)))
      // The step number never decreases, and the model is called once per iteration that
      // passes the ceiling check: at most max(0, max_steps - 1 - initial step) times.
      ensures agentStep.stepNumber >= old(agentStep.stepNumber)
      ensures llmCalls - old(llmCalls) <= if old(agentStep.IsLastStep()) then 0
                                          else agentStep.maxSteps - 1 - old(agentStep.stepNumber)
      ensures outcome.Finished? && agentStep.IsLastStep() ==>
        && outcome.result == AgentResult(false, None, Some(MaxStepsError))
        && llmCalls - old(llmCalls) == agentStep.stepNumber - old(agentStep.stepNumber)
      ensures outcome.Finished? && !agentStep.IsLastStep() ==>
        llmCalls - old(llmCalls) == agentStep.stepNumber - old(agentStep.stepNumber) + 1
      ensures outcome.Finished? && old(agentStep.IsLastStep()) ==>
        outcome.result == AgentResult(false, None, Some(MaxStepsError)) && llmCalls == old(llmCalls)
      // The opening messages stay in place, and the failure counter stays 0.
      ensures outcome.Finished? ==>
        |agentState.messages| >= 3 && agentState.messages[..2] == Opening(query)
      ensures outcome.Finished? ==> agentState.consecutiveFailures == 0
      // A terminal answer carries the Done Tool's content; every other exit carries an error.
      ensures outcome.Finished? && outcome.result.isDone ==>
        && outcome.result.error.None?
        && answered.Some? && answered.value.name == DoneToolName
        && KwargsOf(answered.value.params).Ok?
        && outcome.result.content
           == Execute(registry, DoneToolName, KwargsOf(answered.value.params).value).content
      ensures outcome.Finished? && !outcome.result.isDone ==>
        outcome.result.content.None? && outcome.result.error.Some?
    {
      var toolsPrompt := GetToolsPrompt(registry);
      var prompt := RenderObservation(prompts.observation, agentStep.stepNumber, agentStep.maxSteps,
                                      Observation(ToolResult(true, Some("No Action"), None)));
      if prompt.Err? {
        return Escaped(prompt.error);
      }
      var system := System(prompts.system(instructions, toolsPrompt, filePath, agentStep.maxSteps));
      var opening := [system, Human("<user_query>" + query + "</user_query>")];
      assert opening == Opening(query);
      agentState.InitState(opening + [Human(prompt.value)]);
      ghost var first := agentState.messages;
      ghost var step0 := agentStep.stepNumber;
      ghost var calls0 := llmCalls;
      while true
        invariant Valid()
        invariant agentStep.maxSteps == old(agentStep.maxSteps)
        invariant prompts.observation.Renders?
        invariant step0 <= agentStep.stepNumber
        invariant agentStep.stepNumber == step0 || agentStep.stepNumber <= agentStep.maxSteps - 1
        invariant llmCalls - calls0 == agentStep.stepNumber - step0
        invariant |agentState.messages| >= 3 && agentState.messages[..2] == opening
        invariant agentState.consecutiveFailures == 0
        invariant llmCalls == calls0 ==> agentState.messages == first
        invariant llmCalls != calls0 ==> Interpret(llm(calls0, first), decode).Ok?
        decreases agentStep.maxSteps - agentStep.stepNumber
      {
        if agentStep.IsLastStep() {
          return Finished(AgentResult(false, None, Some(MaxStepsError)));
        }
        var exit := Iterate();
        if exit.Some? {
          return Finished(exit.value);
        }
      }
    }

    /**
     * One pass of the loop body past the ceiling check: reason, then answer and stop on the
     * terminal action, or act and advance the step. A fault stops with a failed result.
     */
    method Iterate() returns (exit: Option<AgentResult>)
      requires Valid() && prompts.observation.Renders? && !agentStep.IsLastStep()
      requires |agentState.messages| >= 3 && agentState.consecutiveFailures == 0
      modifies this, agentState, agentStep
      ensures Valid() && agentStep.maxSteps == old(agentStep.maxSteps)
      ensures agentState.consecutiveFailures == 0
      ensures |agentState.messages| >= 3 && agentState.messages[..2] == old(agentState.messages[..2])
      ensures llmCalls == old(llmCalls) + 1
      ensures agentStep.stepNumber == old(agentStep.stepNumber) + (if exit.None? then 1 else 0)
      ensures exit.Some? && exit.value.isDone ==>
        && exit.value.error.None?
        && answered.Some? && answered.value.name == DoneToolName
        && KwargsOf(answered.value.params).Ok?
        && exit.value.content
           == Execute(registry, DoneToolName, KwargsOf(answered.value.params).value).content
      ensures exit.Some? && !exit.value.isDone ==> exit.value.content.None? && exit.value.error.Some?
      // Which fault, if any, ends the pass.
      ensures
        var parsed := Interpret(llm(old(llmCalls), old(agentState.messages)), decode);
        parsed.Err? ==> exit == Some(AgentResult(false, None, Some(parsed.error)))
      ensures
        var parsed := Interpret(llm(old(llmCalls), old(agentState.messages)), decode);
        parsed.Ok? ==>
          var d := parsed.value;
          var kwargs := KwargsOf(d.action.value.params);
          && (kwargs.Err? ==> exit == Some(AgentResult(false, None, Some(kwargs.error))))
          && (IsTerminal(Some(d)) ==> exit.Some? && (exit.value.isDone <==> kwargs.Ok?))
          && (!IsTerminal(Some(d)) && kwargs.Ok? ==>
                var obs := Observation(Execute(registry, d.action.value.name, kwargs.value));
                exit == if obs.None? then Some(AgentResult(false, None, Some(ShortenNoneError))) else None)
    {
      ghost var before := agentState.messages;
      var fault := Reason();
      if fault.Some? {
        return Some(AgentResult(false, None, fault));
      }
      assert agentState.messages[..2] == before[..2] by {
        assert agentState.messages[..|before|] == before;
      }
      if agentState.IsDone() {
        var result := Conclude();
        return Some(result);
      }
      exit := Act();
    }

    /** The terminal branch: answer, and report the Done Tool's content or the answer's fault. */
    method Conclude() returns (result: AgentResult)
      requires Valid() && agentState.IsDone() && |agentState.messages| >= 4
      modifies this, agentState
      ensures Valid() && agentState.consecutiveFailures == old(agentState.consecutiveFailures)
      ensures |agentState.messages| >= 3 && agentState.messages[..2] == old(agentState.messages[..2])
      ensures llmCalls == old(llmCalls)
      ensures result.isDone ==>
        && result.error.None?
        && answered.Some? && answered.value.name == DoneToolName
        && KwargsOf(answered.value.params).Ok?
        && result.content == Execute(registry, DoneToolName, KwargsOf(answered.value.params).value).content
      ensures !result.isDone ==> result.content.None? && result.error.Some?
      ensures
        var kwargs := KwargsOf(old(agentState.agentData).value.action.value.params);
        && (result.isDone <==> kwargs.Ok?)
        && (kwargs.Err? ==> result == AgentResult(false, None, Some(kwargs.error)))
    {
      var fault := Answer();
      if fault.Some? {
        return AgentResult(false, None, fault);
      }
      result := AgentResult(true, agentState.result, None);
    }

    /** The non-terminal branch: act, then advance the step, or stop on the action's fault. */
    method Act() returns (exit: Option<AgentResult>)
      requires Valid() && prompts.observation.Renders? && agentState.agentData.Some?
      requires |agentState.messages| >= 4 && agentState.consecutiveFailures == 0
      modifies agentState, agentStep
      ensures Valid() && agentStep.maxSteps == old(agentStep.maxSteps)
      ensures agentState.consecutiveFailures == 0
      ensures |agentState.messages| >= 3 && agentState.messages[..2] == old(agentState.messages[..2])
      ensures agentStep.stepNumber == old(agentStep.stepNumber) + (if exit.None? then 1 else 0)
      ensures exit.Some? ==> !exit.value.isDone && exit.value.content.None? && exit.value.error.Some?
      ensures
        var d := old(agentState.agentData).value;
        var kwargs := KwargsOf(d.action.value.params);
        if kwargs.Err? then exit == Some(AgentResult(false, None, Some(kwargs.error)))
        else
          var obs := Observation(Execute(registry, d.action.value.name, kwargs.value));
          exit == if obs.None? then Some(AgentResult(false, None, Some(ShortenNoneError))) else None
    {
      var fault := Action();
      if fault.Some? {
        return Some(AgentResult(false, None, fault));
      }
      if agentState.consecutiveFailures >= 3 {
        // Unreachable: only InitState writes the counter, and it writes 0.
        assert false;
      }
      agentStep.IncrementStep();
      exit := None;
    }
  }
}
