/**
 * `context_engine` of commons/engine/engine_k15.py as a loop: plan once,
 * then run the steps in order against a growing state, resolving references
 * by pattern, counting tokens and logging each completed step with its
 * telemetry; the first failing step finalises the trace and ends the run.
 */
module EngineK15 {
  import opened Wrappers
  import opened Json
  import opened Mcp
  import opened Registry
  import opened Resolver
  import opened Planner
  import opened Trace
  import opened Executor

  /**
   * One iteration of the step loop: dispatch, resolve, call the handler,
   * count tokens and log; a failure finalises the trace.
   */
  method ExecuteStep(ghost f: (State, Value) -> StepResult, edition: Edition, env: Env, state: State, step: Value,
                     trace: ExecutionTrace)
    returns (r: StepResult)
    requires IsStepOf(f, K15, edition, env) && trace.Valid()
    modifies trace
    ensures r == f(state, step)
    ensures trace.Valid() && trace.plan == old(trace.plan)
    ensures r.Completed? ==>
      trace.steps == old(trace.steps) + [r.entry] && trace.status == old(trace.status) && trace.finalOutput == old(trace.finalOutput)
    ensures r.Failed? ==> trace.steps == old(trace.steps) && trace.status == r.status && trace.finalOutput == Null
    ensures r.Escaped? ==>
      trace.steps == old(trace.steps) && trace.status == old(trace.status) && trace.finalOutput == old(trace.finalOutput)
  {
    ghost var spec := RunStep(K15, edition, env, state, step);
    var num := DictGet(step, "step");
    if num.Err? {
      return Escaped(num.error);
    }
    var agent := Get(step.fields, "agent");
    var input := Get(step.fields, "input");
    var handler := GetHandler(edition, agent);
    if handler.Err? {
      r := Failed(StepFailure(K15, num.value, agent, handler.error));
      trace.Finalize(r.status, Null);
      return;
    }
    var resolved := ResolvePattern(input, state);
    var tokensIn := env.tokens(StrForm(resolved));
    var response := env.handle(handler.value, CreateMessage("Engine", resolved, Null));
    if response.Err? {
      r := Failed(StepFailure(K15, num.value, agent, response.error));
      trace.Finalize(r.status, Null);
      return;
    }
    var output := response.value.content;
    var tokensOut := env.tokens(StrForm(output));
    trace.LogStepWithTokens(num.value, agent, input, response.value, resolved, tokensIn, tokensOut);
    r := Completed(StepKey(num.value), output, Entry(K15, env, num.value, agent, input, resolved, response.value));
  }

  /** The step loop, run until the plan is exhausted or a step halts it. */
  method ExecuteSteps(ghost f: (State, Value) -> StepResult, edition: Edition, env: Env, steps: seq<Value>,
                      trace: ExecutionTrace)
    returns (state: State, halt: Option<Halt>)
    requires IsStepOf(f, K15, edition, env)
    requires trace.Valid() && trace.steps == [] && trace.status == "Initialized" && trace.finalOutput == Null
    modifies trace
    ensures Prefix(f, steps, |steps|) == Progress(state, trace.steps, halt)
    ensures trace.Valid() && trace.plan == old(trace.plan)
    ensures halt.Some? && halt.value.Stop? ==> trace.status == halt.value.status && trace.finalOutput == Null
    ensures halt.None? || halt.value.Escape? ==> trace.status == "Initialized" && trace.finalOutput == Null
  {
    state := map[];
    var i := 0;
    while i < |steps|
      invariant 0 <= i <= |steps|
      invariant Prefix(f, steps, i) == Progress(state, trace.steps, None)
      invariant trace.plan == old(trace.plan) && trace.status == "Initialized" && trace.finalOutput == Null
      invariant trace.Valid()
    {
      ghost var entries := trace.steps;
      var r := ExecuteStep(f, edition, env, state, steps[i], trace);
      LoopStep(f, steps, i, state, entries, r);
      if !r.Completed? {
        halt := Some(HaltOf(r));
        return;
      }
      state := state[r.key := r.output];
      i := i + 1;
    }
    halt := None;
  }

  /** `context_engine(goal, ...)`: the returned value and the trace are those of the run `Engine` describes. */
  method ContextEngine(goal: string, edition: Edition, env: Env) returns (result: Outcome, trace: ExecutionTrace)
    ensures fresh(trace) && trace.goal == goal && trace.Valid()
    ensures Run(result, trace.plan, trace.steps, trace.status, trace.finalOutput) == Engine(K15, edition, env)
  {
    trace := new ExecutionTrace(goal);
    if env.connectError.Some? {
      trace.Finalize("Init Error: " + env.connectError.value, Null);
      return Returned(Null), trace;
    }
    var extracted := ExtractPlan(env.planReply);
    if extracted.Err? {
      trace.Finalize("Init Error: " + extracted.error, Null);
      return Returned(Null), trace;
    }
    var plan := extracted.value;
    trace.LogPlan(plan);

    var iterated := Iterate(plan);
    if iterated.Err? {
      return Raised(iterated.error), trace;
    }
    var steps := iterated.value;
    StepOfIsStep(K15, edition, env);
    var state, halt := ExecuteSteps(StepOf(K15, edition, env), edition, env, steps, trace);
    EngineOfLoop(K15, edition, env);
    match halt {
      case Some(Stop(_)) =>
        return Returned(Null), trace;
      case Some(Escape(e)) =>
        return Raised(e), trace;
      case None =>
        var finalOutput := StateGet(state, FinalKey(|steps|), Null);
        trace.Finalize("Success", finalOutput);
        return Returned(finalOutput), trace;
    }
  }
}
