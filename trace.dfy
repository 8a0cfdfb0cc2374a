/**
 * `ExecutionTrace`, the run log kept by `context_engine` in the three engine
 * revisions: the plan, one entry per completed step, a status string and the
 * final output. commons/engine/engine.py and commons/engine/engine_k15.py
 * record token telemetry with each step; commons/ch9/engine.py does not.
 */
module Trace {
  import opened Json
  import opened Wrappers
  import opened Mcp

  datatype Telemetry = Telemetry(tokensIn: nat, tokensOut: nat, tokensSaved: nat)

  datatype StepEntry = StepEntry(
    step: Value,
    agent: Value,
    plannedInput: Value,
    resolvedContext: Value,
    output: Value,
    telemetry: Option<Telemetry>)

  /**
   * `max(0, tokens_in - tokens_out) if agent == "Summarizer" else 0`: the
   * reduction the Summarizer achieved; no other agent is credited.
   */
  function TokensSaved(agent: Value, tokensIn: nat, tokensOut: nat): (r: nat)
    ensures r <= tokensIn
    ensures agent != Str("Summarizer") ==> r == 0
    ensures agent == Str("Summarizer") && tokensOut <= tokensIn ==> r + tokensOut == tokensIn
    ensures agent == Str("Summarizer") && tokensOut >= tokensIn ==> r == 0
  {
    if agent == Str("Summarizer") && tokensIn > tokensOut then tokensIn - tokensOut else 0
  }

  /** What each entry's telemetry must satisfy. */
  predicate TelemetryOk(e: StepEntry) {
    e.telemetry.Some? ==>
      e.telemetry.value.tokensSaved == TokensSaved(e.agent, e.telemetry.value.tokensIn, e.telemetry.value.tokensOut)
  }

  class ExecutionTrace {
    const goal: string
    var plan: Value
    var steps: seq<StepEntry>
    var status: string
    var finalOutput: Value

    /** Every logged entry carries telemetry consistent with its agent. */
    predicate Valid()
      reads this
    {
      forall i :: 0 <= i < |steps| ==> TelemetryOk(steps[i])
    }

    constructor (goal: string)
      ensures this.goal == goal
      ensures plan == Null && steps == [] && status == "Initialized" && finalOutput == Null
      ensures Valid()
    {
      this.goal := goal;
      plan := Null;
      steps := [];
      status := "Initialized";
      finalOutput := Null;
    }

    method LogPlan(p: Value)
      modifies this
      ensures plan == p
      ensures steps == old(steps) && status == old(status) && finalOutput == old(finalOutput)
    {
      plan := p;
    }

    /** `log_step` of commons/ch9/engine.py: the entry records the message content and no telemetry. */
    method LogStep(step: Value, agent: Value, plannedInput: Value, output: Message, resolved: Value)
      requires Valid()
      modifies this
      ensures steps == old(steps) + [StepEntry(step, agent, plannedInput, resolved, output.content, None)]
      ensures plan == old(plan) && status == old(status) && finalOutput == old(finalOutput)
      ensures Valid()
    {
      steps := steps + [StepEntry(step, agent, plannedInput, resolved, output.content, None)];
    }

    /** `log_step` with `tokens_in` and `tokens_out`, as in the other two revisions. */
    method LogStepWithTokens(step: Value, agent: Value, plannedInput: Value, output: Message, resolved: Value,
                             tokensIn: nat, tokensOut: nat)
      requires Valid()
      modifies this
      ensures steps == old(steps) + [StepEntry(step, agent, plannedInput, resolved, output.content,
                                               Some(Telemetry(tokensIn, tokensOut, TokensSaved(agent, tokensIn, tokensOut))))]
      ensures plan == old(plan) && status == old(status) && finalOutput == old(finalOutput)
      ensures Valid()
    {
      var saved := TokensSaved(agent, tokensIn, tokensOut);
      steps := steps + [StepEntry(step, agent, plannedInput, resolved, output.content,
                                  Some(Telemetry(tokensIn, tokensOut, saved)))];
    }

    /** `finalize(status, final_output)`: overwrites the status and the output. */
    method Finalize(s: string, output: Value)
      modifies this
      ensures status == s && finalOutput == output
      ensures plan == old(plan) && steps == old(steps)
    {
      status := s;
      finalOutput := output;
    }
  }

  /** Telemetry never credits savings larger than the input, and only to the Summarizer. */
  lemma SavingsBounded(t: ExecutionTrace, i: int)
    requires t.Valid() && 0 <= i < |t.steps| && t.steps[i].telemetry.Some?
    ensures t.steps[i].telemetry.value.tokensSaved <= t.steps[i].telemetry.value.tokensIn
    ensures t.steps[i].agent != Str("Summarizer") ==> t.steps[i].telemetry.value.tokensSaved == 0
  {
    assert TelemetryOk(t.steps[i]);
  }
}
