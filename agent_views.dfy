/**
 * The agent's intent datatypes and its two mutable state objects: the conversation state
 * (`AgentState`) and the step counter (`AgentStep`).
 */
module AgentViews {
  import opened Common
  import opened Values

  /** The three chat message kinds the loop stores: system, human (user) and AI messages. */
  datatype Message = System(content: string) | Human(content: string) | AI(content: string)

  /** A validated action: its name and its keyword arguments (a Python dict, in insertion order). */
  datatype Action = Action(name: string, params: seq<(Value, Value)>)

  /** The parsed intent of one model reply; every field is optional. */
  datatype AgentData = AgentData(
    evaluate: Option<string>,
    memory: Option<string>,
    thought: Option<string>,
    action: Option<Action>)

  /** What `invoke` returns. */
  datatype AgentResult = AgentResult(isDone: bool, content: Option<string>, error: Option<string>)

  /** `is_last_step` for a step number and a ceiling. */
  predicate LastStep(stepNumber: int, maxSteps: int)
  {
    stepNumber >= maxSteps - 1
  }

  /**
   * Once the last step is reached, further increments keep it; from below it, exactly
   * `max_steps - 1 - step` increments reach it.
   */
  lemma CeilingAfterIncrements(stepNumber: int, maxSteps: int, n: nat)
    ensures LastStep(stepNumber, maxSteps) ==> LastStep(stepNumber + n, maxSteps)
    ensures !LastStep(stepNumber, maxSteps) ==>
      (LastStep(stepNumber + n, maxSteps) <==> n >= maxSteps - 1 - stepNumber)
  {
  }

  /** The reserved name of the terminal action. */
  const DoneToolName: string := "Done Tool"

  /**
   * The intent is terminal: an intent is present and its action is named exactly `Done Tool`.
   * Reading the name of a missing action raises in the source, hence the requires.
   */
  predicate IsTerminal(d: Option<AgentData>)
    requires d.Some? ==> d.value.action.Some?
  {
    d.Some? && d.value.action.value.name == DoneToolName
  }

  class AgentState {
    var consecutiveFailures: int
    var result: Option<string>
    var agentData: Option<AgentData>
    var messages: seq<Message>
    var previousObservation: Option<string>

    /** An intent held by the state always carries an action (the parser guarantees it). */
    ghost predicate Valid()
      reads this
    {
      agentData.Some? ==> agentData.value.action.Some?
    }

    /** A fresh state: no failures, empty result, no intent, no messages, no observation. */
    constructor ()
      ensures consecutiveFailures == 0 && result == Some("") && agentData == None
      ensures messages == [] && previousObservation == None
      ensures Valid()
    {
      consecutiveFailures := 0;
      result := Some("");
      agentData := None;
      messages := [];
      previousObservation := None;
    }

    /** `is_done`. */
    predicate IsDone()
      requires Valid()
      reads this
    {
      IsTerminal(agentData)
    }

    /** Resets the failure count and the result and installs `msgs`; the intent and the observation stay. */
    method InitState(msgs: seq<Message>)
      modifies this
      ensures consecutiveFailures == 0 && result == Some("") && messages == msgs
      ensures agentData == old(agentData) && previousObservation == old(previousObservation)
    {
      consecutiveFailures := 0;
      result := Some("");
      messages := msgs;
    }

    /**
     * Overwrites the result, the observation and the intent with the arguments (absent ones
     * become None) and appends `msgs` after the existing messages.
     */
    method UpdateState(data: Option<AgentData>, observation: Option<string>, res: Option<string>,
                       msgs: Option<seq<Message>>)
      modifies this
      ensures result == res && previousObservation == observation && agentData == data
      ensures messages == old(messages) + (if msgs.Some? then msgs.value else [])
      ensures consecutiveFailures == old(consecutiveFailures)
    {
      result := res;
      previousObservation := observation;
      agentData := data;
      messages := messages + (if msgs.Some? then msgs.value else []);
    }
  }

  class AgentStep {
    var stepNumber: int
    var maxSteps: int

    /** A counter at 0 with the given ceiling. */
    constructor (maxSteps: int)
      ensures stepNumber == 0 && this.maxSteps == maxSteps
    {
      stepNumber := 0;
      this.maxSteps := maxSteps;
    }

    /** `is_last_step`: the step number has reached `max_steps - 1`. */
    predicate IsLastStep()
      reads this
    {
      LastStep(stepNumber, maxSteps)
    }

    /** Raises the step number by exactly one; the ceiling stays. */
    method IncrementStep()
      modifies this
      ensures stepNumber == old(stepNumber) + 1 && maxSteps == old(maxSteps)
    {
      stepNumber := stepNumber + 1;
    }
  }
}
