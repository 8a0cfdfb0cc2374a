/**
 * The specification of `context_engine` in its three revisions, as functions
 * over the plan, and the properties of a run proved about them. The loop
 * methods in engine_k15.dfy, engine_lenient.dfy and engine_ch9.dfy are each
 * proved to produce exactly the run `Engine` describes.
 *
 * The index connection, the planner's reply, the agent handlers and the
 * token counter are the environment `Env` of a run.
 */
module Executor {
  import opened Wrappers
  import opened Json
  import opened Mcp
  import opened Registry
  import opened Resolver
  import opened Placeholder
  import opened Planner
  import opened Trace

  /** commons/engine/engine_k15.py, commons/engine/engine.py and commons/ch9/engine.py. */
  datatype Revision = K15 | Lenient | Strict

  datatype Env = Env(
    connectError: Option<string>,                  // what `pc.Index(index_name)` raised, if anything
    planReply: Result<Value>,                      // the parsed planner reply, or what the call or parse raised
    handle: (Handler, Message) -> Result<Message>, // an agent handler applied to a request
    tokens: string -> nat)                         // `count_tokens`

  /** What `context_engine` does for its caller: return a value, or let an exception escape. */
  datatype Outcome = Returned(value: Value) | Raised(error: string)

  /** The whole observable effect of one run. */
  datatype Run = Run(outcome: Outcome, plan: Value, entries: seq<StepEntry>, status: string, finalOutput: Value)

  // ---------------------------------------------------------------------------
  // Planning.
  // ---------------------------------------------------------------------------

  /** The plan, or the status the run is finalised with when connecting or planning fails. */
  function Plan(rev: Revision, env: Env): (r: Result<Value>)
    ensures env.connectError.Some? ==> r.Err?
    ensures rev == Strict && r.Ok? ==> r.value.Arr? && r.value.items != []
    ensures rev == Strict && r.Err? ==>
      r.error in {"Failed during Initialization (Pinecone Connection)", "Failed during Planning"}
  {
    match rev
    case Strict =>
      if env.connectError.Some? then Err("Failed during Initialization (Pinecone Connection)")
      else
        (match ValidatePlan(env.planReply)
         case Ok(steps) => Ok(Arr(steps))
         case Err(_) => Err("Failed during Planning"))
    case _ =>
      var prefix := if rev == K15 then "Init Error: " else "Failed during Planning/Init: ";
      if env.connectError.Some? then Err(prefix + env.connectError.value)
      else
        (match ExtractPlan(env.planReply)
         case Ok(plan) => Ok(plan)
         case Err(e) => Err(prefix + e))
  }

  /** `for step in plan`: a list yields its items, a dictionary its keys, a string its characters. */
  function Iterate(plan: Value): (r: Result<seq<Value>>)
    ensures plan.Arr? ==> r == Ok(plan.items)
    ensures r.Ok? <==> plan.Arr? || plan.Obj? || plan.Str?
    ensures r.Ok? && !plan.Arr? ==> forall k :: 0 <= k < |r.value| ==> r.value[k].Str?
  {
    match plan
    case Arr(items) => Ok(items)
    case Obj(fields) => Ok(seq(|fields|, k requires 0 <= k < |fields| => Str(fields[k].key)))
    case Str(s) => Ok(seq(|s|, k requires 0 <= k < |s| => Str([s[k]])))
    case _ => Err("'" + TypeName(plan) + "' object is not iterable")
  }

  // ---------------------------------------------------------------------------
  // One step.
  // ---------------------------------------------------------------------------

  /** `f"STEP_{step_num}_OUTPUT"` */
  function StepKey(num: Value): string {
    "STEP_" + StrForm(num) + "_OUTPUT"
  }

  /** `f"STEP_{len(plan)}_OUTPUT"` */
  function FinalKey(n: nat): string {
    "STEP_" + NatToString(n) + "_OUTPUT"
  }

  datatype StepResult =
    | Completed(key: string, output: Value, entry: StepEntry)
    | Failed(status: string)
    | Escaped(error: string)

  /** The status a failing step finalises the trace with. */
  function StepFailure(rev: Revision, num: Value, agent: Value, error: string): (r: string)
    ensures r != "Success"
  {
    assert ("Fatal Step Error: Step " + StrForm(num))[0] == 'F';
    assert ("Failed at Step " + StrForm(num))[0] == 'F';
    if rev == K15 then "Fatal Step Error: Step " + StrForm(num) + " (" + StrForm(agent) + ") failed: " + error
    else "Failed at Step " + StrForm(num)
  }

  /** The step-structure check of commons/ch9/engine.py. */
  predicate WellFormedStep(num: Value, agent: Value, input: Value) {
    Truthy(num) && Truthy(agent) && input != Null
  }

  /** Resolving the planned input: never failing in the two lenient revisions. */
  function ResolveFor(rev: Revision, input: Value, state: State): (r: Result<Value>)
    ensures rev != Strict ==> r.Ok?
  {
    match rev
    case K15 => Ok(ResolvePattern(input, state))
    case Lenient => Ok(ResolveLenient(input, state))
    case Strict => ResolveStrict(input, state)
  }

  /** The entry `log_step` appends for a completed step. */
  function Entry(rev: Revision, env: Env, num: Value, agent: Value, input: Value, resolved: Value, response: Message)
    : StepEntry
  {
    var telemetry :=
      if rev == Strict then None
      else
        var tIn := env.tokens(StrForm(resolved));
        var tOut := env.tokens(StrForm(response.content));
        Some(Telemetry(tIn, tOut, TokensSaved(agent, tIn, tOut)));
    StepEntry(num, agent, input, resolved, response.content, telemetry)
  }

  /** One iteration of the step loop, against the state so far. */
  function RunStep(rev: Revision, edition: Edition, env: Env, state: State, step: Value): (r: StepResult)
    ensures r.Escaped? <==> !step.Obj?
    ensures r.Completed? ==>
      && r.key == StepKey(Get(step.fields, "step"))
      && r.entry.step == Get(step.fields, "step")
      && r.entry.agent == Get(step.fields, "agent")
      && r.entry.plannedInput == Get(step.fields, "input")
      && r.entry.output == r.output
      && TelemetryOk(r.entry)
      && (r.entry.telemetry.None? <==> rev == Strict)
      && GetHandler(edition, Get(step.fields, "agent")).Ok?
    ensures r.Failed? ==> r.status != "Success"
    ensures r.Completed? && rev == Strict ==> WellFormedStep(Get(step.fields, "step"), Get(step.fields, "agent"), Get(step.fields, "input"))
    ensures r.Completed? ==>
      && ResolveFor(rev, Get(step.fields, "input"), state) == Ok(r.entry.resolvedContext)
      && env.handle(GetHandler(edition, Get(step.fields, "agent")).value, CreateMessage("Engine", r.entry.resolvedContext, Null)).Ok?
      && r.output == env.handle(GetHandler(edition, Get(step.fields, "agent")).value, CreateMessage("Engine", r.entry.resolvedContext, Null)).value.content
    ensures
      && step.Obj?
      && (rev == Strict ==> WellFormedStep(Get(step.fields, "step"), Get(step.fields, "agent"), Get(step.fields, "input")))
      && GetHandler(edition, Get(step.fields, "agent")).Ok?
      && ResolveFor(rev, Get(step.fields, "input"), state).Ok?
      && env.handle(GetHandler(edition, Get(step.fields, "agent")).value,
                    CreateMessage("Engine", ResolveFor(rev, Get(step.fields, "input"), state).value, Null)).Ok?
      ==> r.Completed?
  {
    match DictGet(step, "step")
    case Err(e) => Escaped(e)
    case Ok(num) =>
      var agent := Get(step.fields, "agent");
      var input := Get(step.fields, "input");
      if rev == Strict && !WellFormedStep(num, agent, input) then
        Failed("Failed during Execution (Invalid Plan Structure)")
      else
        match GetHandler(edition, agent)
        case Err(e) => Failed(StepFailure(rev, num, agent, e))
        case Ok(handler) =>
          match ResolveFor(rev, input, state)
          case Err(e) => Failed(StepFailure(rev, num, agent, e))
          case Ok(resolved) =>
            match env.handle(handler, CreateMessage("Engine", resolved, Null))
            case Err(e) => Failed(StepFailure(rev, num, agent, e))
            case Ok(response) =>
              Completed(StepKey(num), response.content, Entry(rev, env, num, agent, input, resolved, response))
  }

  // ---------------------------------------------------------------------------
  // The step loop.
  // ---------------------------------------------------------------------------

  datatype Halt = Stop(status: string) | Escape(error: string)

  /** The state, the logged entries and, once the loop has left early, why. */
  datatype Progress = Progress(state: State, entries: seq<StepEntry>, halt: Option<Halt>)

  function Advance(p: Progress, r: StepResult): Progress {
    match r
    case Completed(key, output, entry) => Progress(p.state[key := output], p.entries + [entry], None)
    case Failed(status) => Progress(p.state, p.entries, Some(Stop(status)))
    case Escaped(e) => Progress(p.state, p.entries, Some(Escape(e)))
  }

  /** The step function of one revision, registry and environment. */
  function StepOf(rev: Revision, edition: Edition, env: Env): (State, Value) -> StepResult {
    (state: State, step: Value) => RunStep(rev, edition, env, state, step)
  }

  /**
   * `f` computes what `RunStep` does for `rev`, `edition` and `env`. The
   * equation is only brought in where a `RunStep` term is present, so the step
   * loops reason about the step function without unfolding a step.
   */
  ghost predicate IsStepOf(f: (State, Value) -> StepResult, rev: Revision, edition: Edition, env: Env) {
    forall state, step {:trigger RunStep(rev, edition, env, state, step)} ::
      f(state, step) == RunStep(rev, edition, env, state, step)
  }

  lemma StepOfIsStep(rev: Revision, edition: Edition, env: Env)
    ensures IsStepOf(StepOf(rev, edition, env), rev, edition, env)
  {
  }

  /**
   * The loop after its first `n` iterations of the step function `f`; a step
   * that halts the loop leaves the later steps unrun.
   */
  function Prefix(f: (State, Value) -> StepResult, steps: seq<Value>, n: nat): Progress
    requires n <= |steps|
  {
    if n == 0 then Progress(map[], [], None)
    else
      var p := Prefix(f, steps, n - 1);
      if p.halt.Some? then p else Advance(p, f(p.state, steps[n - 1]))
  }

  /** How a step that does not complete halts the loop. */
  function HaltOf(r: StepResult): (h: Halt)
    requires !r.Completed?
    ensures h.Stop? <==> r.Failed?
  {
    if r.Failed? then Stop(r.status) else Escape(r.error)
  }

  /**
   * One iteration of the loop, as a loop over `f` performs it: a completed
   * step extends the state and the entries, any other ends the loop.
   */
  lemma LoopStep(f: (State, Value) -> StepResult, steps: seq<Value>, i: nat, state: State, entries: seq<StepEntry>, r: StepResult)
    requires i < |steps| && Prefix(f, steps, i) == Progress(state, entries, None) && r == f(state, steps[i])
    ensures r.Completed? ==> Prefix(f, steps, i + 1) == Progress(state[r.key := r.output], entries + [r.entry], None)
    ensures !r.Completed? ==> Prefix(f, steps, |steps|) == Progress(state, entries, Some(HaltOf(r)))
  {
    if !r.Completed? {
      HaltStops(f, steps, i);
    }
  }

  /** A whole run of `context_engine`. */
  function Engine(rev: Revision, edition: Edition, env: Env): Run {
    match Plan(rev, env)
    case Err(status) => Run(Returned(Null), Null, [], status, Null)
    case Ok(plan) =>
      match Iterate(plan)
      case Err(e) => Run(Raised(e), plan, [], "Initialized", Null)
      case Ok(steps) =>
        var p := Prefix(StepOf(rev, edition, env), steps, |steps|);
        match p.halt
        case Some(Stop(status)) => Run(Returned(Null), plan, p.entries, status, Null)
        case Some(Escape(e)) => Run(Raised(e), plan, p.entries, "Initialized", Null)
        case None =>
          var output := StateGet(p.state, FinalKey(|steps|), Null);
          Run(Returned(output), plan, p.entries, "Success", output)
  }

  // ---------------------------------------------------------------------------
  // Properties of the loop.
  // ---------------------------------------------------------------------------

  /**
   * What every completed step reports: it was a dictionary, its entry records
   * its number, agent and planned input, and its output is stored under the
   * key of its number.
   */
  ghost predicate Logs(f: (State, Value) -> StepResult) {
    forall state, step :: f(state, step).Completed? ==>
      && step.Obj?
      && f(state, step).entry.step == Get(step.fields, "step")
      && f(state, step).entry.agent == Get(step.fields, "agent")
      && f(state, step).entry.plannedInput == Get(step.fields, "input")
      && f(state, step).key == StepKey(f(state, step).entry.step)
      && f(state, step).output == f(state, step).entry.output
      && TelemetryOk(f(state, step).entry)
  }

  /** Every completed step of `context_engine` reports as `Logs` says. */
  lemma StepsLog(rev: Revision, edition: Edition, env: Env)
    ensures Logs(StepOf(rev, edition, env))
  {
    forall state, step | StepOf(rev, edition, env)(state, step).Completed?
      ensures step.Obj?
    {
      var r := RunStep(rev, edition, env, state, step);
      assert r.Completed?;
    }
  }

  /** The part of `Logs` the state depends on: a completed step stores its output under its own key. */
  ghost predicate Keyed(f: (State, Value) -> StepResult) {
    forall state, step {:trigger f(state, step)} :: f(state, step).Completed? ==>
      f(state, step).key == StepKey(f(state, step).entry.step) && f(state, step).output == f(state, step).entry.output
  }

  lemma LogsKeyed(f: (State, Value) -> StepResult)
    requires Logs(f)
    ensures Keyed(f)
  {
  }

  /** Once a step halts the loop, no later step runs: nothing more is logged or stored. */
  lemma {:induction false} HaltIsFinal(f: (State, Value) -> StepResult, steps: seq<Value>, k: nat, n: nat)
    requires k <= n <= |steps|
    requires Prefix(f, steps, k).halt.Some?
    ensures Prefix(f, steps, n) == Prefix(f, steps, k)
    decreases n
  {
    if n > k {
      HaltIsFinal(f, steps, k, n - 1);
    }
  }

  /** What entry `j` of a run records about step `j` of the plan. */
  predicate Records(steps: seq<Value>, entries: seq<StepEntry>, j: int)
    requires 0 <= j < |entries| && j < |steps|
  {
    && steps[j].Obj?
    && entries[j].step == Get(steps[j].fields, "step")
    && entries[j].agent == Get(steps[j].fields, "agent")
    && entries[j].plannedInput == Get(steps[j].fields, "input")
  }

  /** What iteration `n` adds: a completed step's entry and output, or nothing. */
  lemma PrefixExtends(f: (State, Value) -> StepResult, steps: seq<Value>, n: nat)
    requires 0 < n <= |steps|
    ensures var q := Prefix(f, steps, n - 1);
      var p := Prefix(f, steps, n);
      if q.halt.None? && f(q.state, steps[n - 1]).Completed? then
        && p.entries == q.entries + [f(q.state, steps[n - 1]).entry]
        && p.state == q.state[f(q.state, steps[n - 1]).key := f(q.state, steps[n - 1]).output]
      else
        p.entries == q.entries && p.state == q.state
  {
  }

  /** At most one entry per step, and exactly one per step without a halt. */
  lemma {:induction false} EntriesCount(f: (State, Value) -> StepResult, steps: seq<Value>, n: nat)
    requires n <= |steps|
    ensures |Prefix(f, steps, n).entries| <= n
    ensures Prefix(f, steps, n).halt.None? ==> |Prefix(f, steps, n).entries| == n
    decreases n
  {
    if n > 0 {
      EntriesCount(f, steps, n - 1);
      PrefixExtends(f, steps, n);
    }
  }

  /** Entry `j` is what step `j` completed with, after the first `j` iterations. */
  lemma {:induction false} EntriesAreResults(f: (State, Value) -> StepResult, steps: seq<Value>, n: nat)
    requires n <= |steps|
    ensures forall j {:trigger Prefix(f, steps, n).entries[j]} :: 0 <= j < |Prefix(f, steps, n).entries| && j < n ==>
      && Prefix(f, steps, j).halt.None?
      && f(Prefix(f, steps, j).state, steps[j]).Completed?
      && Prefix(f, steps, n).entries[j] == f(Prefix(f, steps, j).state, steps[j]).entry
    decreases n
  {
    if n > 0 {
      EntriesAreResults(f, steps, n - 1);
      EntriesCount(f, steps, n - 1);
      PrefixExtends(f, steps, n);
      var q := Prefix(f, steps, n - 1);
      var p := Prefix(f, steps, n);
      forall j | 0 <= j < |p.entries| && j < n
        ensures && Prefix(f, steps, j).halt.None?
                && f(Prefix(f, steps, j).state, steps[j]).Completed?
                && p.entries[j] == f(Prefix(f, steps, j).state, steps[j]).entry
      {
        if j < |q.entries| {
          assert j < n - 1;
          assert p.entries[j] == q.entries[j];
        } else {
          assert q.halt.None? && f(q.state, steps[n - 1]).Completed?;
          assert j == n - 1;
          assert p.entries[j] == f(q.state, steps[n - 1]).entry;
        }
      }
    }
  }

  /** Without a halt, one entry per step, in plan order, each recording its own step. */
  lemma EntriesFollowPlan(f: (State, Value) -> StepResult, steps: seq<Value>, n: nat)
    requires n <= |steps| && Logs(f)
    ensures |Prefix(f, steps, n).entries| <= n
    ensures Prefix(f, steps, n).halt.None? ==> |Prefix(f, steps, n).entries| == n
    ensures forall j :: 0 <= j < |Prefix(f, steps, n).entries| ==> Records(steps, Prefix(f, steps, n).entries, j)
  {
    EntriesCount(f, steps, n);
    EntriesAreResults(f, steps, n);
    var p := Prefix(f, steps, n);
    forall j | 0 <= j < |p.entries| ensures Records(steps, p.entries, j) {
      assert j < n;
      var e := Prefix(f, steps, n).entries[j];
      var r := f(Prefix(f, steps, j).state, steps[j]);
      assert r.Completed? && e == r.entry;
    }
  }

  /** Every logged step's key is in the state. */
  lemma {:induction false} LoggedKeysStored(f: (State, Value) -> StepResult, steps: seq<Value>, n: nat)
    requires n <= |steps| && Keyed(f)
    ensures forall j :: 0 <= j < |Prefix(f, steps, n).entries| ==>
      StepKey(Prefix(f, steps, n).entries[j].step) in Prefix(f, steps, n).state
    decreases n
  {
    if n > 0 {
      LoggedKeysStored(f, steps, n - 1);
      PrefixExtends(f, steps, n);
      var q := Prefix(f, steps, n - 1);
      var p := Prefix(f, steps, n);
      if q.halt.None? && f(q.state, steps[n - 1]).Completed? {
        forall j | 0 <= j < |p.entries| ensures StepKey(p.entries[j].step) in p.state {
          if j < |q.entries| {
            assert p.entries[j] == q.entries[j];
          }
        }
      }
    }
  }

  /** Every key in the state is that of a logged step. */
  lemma {:induction false} StoredKeysLogged(f: (State, Value) -> StepResult, steps: seq<Value>, n: nat)
    requires n <= |steps| && Keyed(f)
    ensures forall key :: key in Prefix(f, steps, n).state ==>
      exists j :: 0 <= j < |Prefix(f, steps, n).entries| && StepKey(Prefix(f, steps, n).entries[j].step) == key
    decreases n
  {
    if n > 0 {
      StoredKeysLogged(f, steps, n - 1);
      PrefixExtends(f, steps, n);
      var q := Prefix(f, steps, n - 1);
      var p := Prefix(f, steps, n);
      if q.halt.None? && f(q.state, steps[n - 1]).Completed? {
        var r := f(q.state, steps[n - 1]);
        forall key | key in p.state ensures exists j :: 0 <= j < |p.entries| && StepKey(p.entries[j].step) == key {
          if key in q.state && key != r.key {
            var j :| 0 <= j < |q.entries| && StepKey(q.entries[j].step) == key;
            assert p.entries[j] == q.entries[j];
          } else {
            assert StepKey(p.entries[|q.entries|].step) == key;
          }
        }
      }
    }
  }

  /** Under each logged step's key the state holds the output of the last step that wrote it. */
  /** An output still stored before a step survives it unless the step writes the same key. */
  lemma StoredAfterAppend(entries: seq<StepEntry>, state: State, e: StepEntry, j: nat)
    requires j < |entries| && LastWriter(entries + [e], j)
    requires LastWriter(entries, j) ==>
      StepKey(entries[j].step) in state && state[StepKey(entries[j].step)] == entries[j].output
    ensures StepKey(entries[j].step) in state[StepKey(e.step) := e.output]
    ensures state[StepKey(e.step) := e.output][StepKey(entries[j].step)] == entries[j].output
  {
    var all := entries + [e];
    assert all[|entries|] == e && all[j] == entries[j];
    assert LastWriter(entries, j) by {
      forall m | j < m < |entries| ensures StepKey(entries[m].step) != StepKey(entries[j].step) {
        assert all[m] == entries[m];
      }
    }
  }

  lemma {:induction false} StoredOutputs(f: (State, Value) -> StepResult, steps: seq<Value>, n: nat)
    requires n <= |steps| && Keyed(f)
    ensures forall j {:trigger LastWriter(Prefix(f, steps, n).entries, j)} ::
      0 <= j < |Prefix(f, steps, n).entries| && LastWriter(Prefix(f, steps, n).entries, j) ==>
      && StepKey(Prefix(f, steps, n).entries[j].step) in Prefix(f, steps, n).state
      && Prefix(f, steps, n).state[StepKey(Prefix(f, steps, n).entries[j].step)] == Prefix(f, steps, n).entries[j].output
    decreases n
  {
    if n > 0 {
      StoredOutputs(f, steps, n - 1);
      PrefixExtends(f, steps, n);
      var q := Prefix(f, steps, n - 1);
      var p := Prefix(f, steps, n);
      if q.halt.None? && f(q.state, steps[n - 1]).Completed? {
        var r := f(q.state, steps[n - 1]);
        var last := |q.entries|;
        assert p.entries[last] == r.entry;
        assert r.key == StepKey(r.entry.step) && r.output == r.entry.output;
        forall j | 0 <= j < |p.entries| && LastWriter(p.entries, j)
          ensures StepKey(p.entries[j].step) in p.state && p.state[StepKey(p.entries[j].step)] == p.entries[j].output
        {
          if j < last {
            StoredAfterAppend(q.entries, q.state, r.entry, j);
          }
        }
      }
    }
  }

  /**
   * The state holds exactly the keys `STEP_<step>_OUTPUT` of the completed
   * steps, and under each the output of the last step that wrote it.
   */
  lemma StateMatchesEntries(f: (State, Value) -> StepResult, steps: seq<Value>, n: nat)
    requires n <= |steps| && Logs(f)
    ensures forall j :: 0 <= j < |Prefix(f, steps, n).entries| ==>
      StepKey(Prefix(f, steps, n).entries[j].step) in Prefix(f, steps, n).state
    ensures forall key :: key in Prefix(f, steps, n).state ==>
      exists j :: 0 <= j < |Prefix(f, steps, n).entries| && StepKey(Prefix(f, steps, n).entries[j].step) == key
    ensures forall j :: 0 <= j < |Prefix(f, steps, n).entries| && LastWriter(Prefix(f, steps, n).entries, j) ==>
      Prefix(f, steps, n).state[StepKey(Prefix(f, steps, n).entries[j].step)] == Prefix(f, steps, n).entries[j].output
  {
    LogsKeyed(f);
    LoggedKeysStored(f, steps, n);
    StoredKeysLogged(f, steps, n);
    StoredOutputs(f, steps, n);
  }

  /** No later entry writes the same key as entry `j`. */
  predicate LastWriter(entries: seq<StepEntry>, j: int)
    requires 0 <= j < |entries|
  {
    forall m :: j < m < |entries| ==> StepKey(entries[m].step) != StepKey(entries[j].step)
  }

  /** The entries after `k` iterations begin the entries after `n >= k`. */
  lemma {:induction false} EntriesGrow(f: (State, Value) -> StepResult, steps: seq<Value>, k: nat, n: nat)
    requires k <= n <= |steps|
    ensures Prefix(f, steps, k).entries <= Prefix(f, steps, n).entries
    decreases n
  {
    if n > k {
      EntriesGrow(f, steps, k, n - 1);
      PrefixExtends(f, steps, n);
    }
  }

  /**
   * Entry `j` of a run: its planned input was resolved against the state the
   * entries before it left, the agent was sent the resolved value, and the
   * logged output is the content of the agent's reply.
   */
  lemma EntryInputResolved(rev: Revision, edition: Edition, env: Env, steps: seq<Value>, n: nat, j: nat)
    requires j < n <= |steps| && j < |Prefix(StepOf(rev, edition, env), steps, n).entries|
    ensures var f := StepOf(rev, edition, env);
      var e := Prefix(f, steps, n).entries[j];
      var before := Prefix(f, steps, j);
      && before.entries == Prefix(f, steps, n).entries[..j]
      && ResolveFor(rev, e.plannedInput, before.state) == Ok(e.resolvedContext)
      && GetHandler(edition, e.agent).Ok?
      && env.handle(GetHandler(edition, e.agent).value, CreateMessage("Engine", e.resolvedContext, Null)).Ok?
      && e.output == env.handle(GetHandler(edition, e.agent).value, CreateMessage("Engine", e.resolvedContext, Null)).value.content
  {
    var f := StepOf(rev, edition, env);
    var before := Prefix(f, steps, j);
    EntryIsStepResult(f, steps, n, j);
    var r := RunStep(rev, edition, env, before.state, steps[j]);
    assert f(before.state, steps[j]) == r;
    CompletedEntryResolved(rev, edition, env, before.state, steps[j]);
  }

  /** The `j`-th logged entry is what the `j`-th step produced from the state before it. */
  lemma EntryIsStepResult(f: (State, Value) -> StepResult, steps: seq<Value>, n: nat, j: nat)
    requires j < n <= |steps| && j < |Prefix(f, steps, n).entries|
    ensures f(Prefix(f, steps, j).state, steps[j]).Completed?
    ensures Prefix(f, steps, n).entries[j] == f(Prefix(f, steps, j).state, steps[j]).entry
    ensures Prefix(f, steps, j).entries == Prefix(f, steps, n).entries[..j]
  {
    EntriesCount(f, steps, n);
    EntriesAreResults(f, steps, n);
    assert Prefix(f, steps, n).entries[j] == Prefix(f, steps, n).entries[j];
    EntriesCount(f, steps, j);
    EntriesGrow(f, steps, j, n);
  }

  /** A completed step's entry records its input, the context resolved from it and the handler's reply. */
  lemma CompletedEntryResolved(rev: Revision, edition: Edition, env: Env, state: State, step: Value)
    requires RunStep(rev, edition, env, state, step).Completed?
    ensures var e := RunStep(rev, edition, env, state, step).entry;
      && ResolveFor(rev, e.plannedInput, state) == Ok(e.resolvedContext)
      && GetHandler(edition, e.agent).Ok?
      && env.handle(GetHandler(edition, e.agent).value, CreateMessage("Engine", e.resolvedContext, Null)).Ok?
      && e.output == env.handle(GetHandler(edition, e.agent).value, CreateMessage("Engine", e.resolvedContext, Null)).value.content
  {
  }

  /** A string that is exactly the reference to a stored key resolves to the stored value, in every revision. */
  lemma ReferenceLeafResolves(rev: Revision, key: string, state: State)
    requires key in state
    requires rev == K15 ==> IsPlaceholder(Wrap(key))
    ensures ResolveFor(rev, Str(Wrap(key)), state) == Ok(state[key])
  {
    if rev == K15 {
      ExactReferenceLiteral(Wrap(key));
      RefKeyOfWrap(key);
      PatternReferenceResolves(Wrap(key), state);
    } else {
      LenientReferenceResolves(key, state);
    }
  }

  /** A dictionary field that is exactly the reference to a stored key holds the stored value once resolved. */
  lemma ReferenceFieldResolves(rev: Revision, fields: seq<Field>, name: string, key: string, state: State)
    requires key in state
    requires rev == K15 ==> IsPlaceholder(Wrap(key))
    requires Get(fields, name) == Str(Wrap(key))
    requires ResolveFor(rev, Obj(fields), state).Ok?
    ensures ResolveFor(rev, Obj(fields), state).value.Obj?
    ensures Get(ResolveFor(rev, Obj(fields), state).value.fields, name) == state[key]
  {
    ReferenceLeafResolves(rev, key, state);
    match rev
    case K15 =>
      PatternFieldResolves(fields, name, key, state);
    case Lenient =>
      LenientFieldResolves(fields, name, key, state);
    case Strict =>
      StrictMatchesLenient(Obj(fields), state);
      StrictMatchesLenient(Str(Wrap(key)), state);
      LenientFieldResolves(fields, name, key, state);
  }

  lemma PatternFieldResolves(fields: seq<Field>, name: string, key: string, state: State)
    requires key in state && HasKey(fields, name) && ResolvePattern(Get(fields, name), state) == state[key]
    ensures ResolvePattern(Obj(fields), state).Obj?
    ensures Get(ResolvePattern(Obj(fields), state).fields, name) == state[key]
  {
    FieldMapped(fields, s => PatternLeaf(s, state), name);
  }

  lemma LenientFieldResolves(fields: seq<Field>, name: string, key: string, state: State)
    requires key in state && HasKey(fields, name) && ResolveLenient(Get(fields, name), state) == state[key]
    ensures ResolveLenient(Obj(fields), state).Obj?
    ensures Get(ResolveLenient(Obj(fields), state).fields, name) == state[key]
  {
    FieldMapped(fields, s => LenientLeaf(s, state), name);
  }

  /**
   * Before step `j` runs, the state holds under the key of an earlier logged
   * step `i` that no step in between overwrote the output of step `i`.
   */
  lemma StoredBeforeStep(f: (State, Value) -> StepResult, steps: seq<Value>, n: nat, i: nat, j: nat)
    requires Keyed(f) && n <= |steps|
    requires var entries := Prefix(f, steps, n).entries;
      && i < j < |entries|
      && (forall m :: i < m < j ==> StepKey(entries[m].step) != StepKey(entries[i].step))
    ensures j < n
    ensures var e := Prefix(f, steps, n).entries[i];
      && StepKey(e.step) in Prefix(f, steps, j).state
      && Prefix(f, steps, j).state[StepKey(e.step)] == e.output
  {
    var entries := Prefix(f, steps, n).entries;
    EntriesCount(f, steps, n);
    EntriesAreResults(f, steps, n);
    assert Prefix(f, steps, j).halt.None? by {
      assert j < n;
      assert entries[j] == Prefix(f, steps, n).entries[j];
    }
    EntriesCount(f, steps, j);
    EntriesGrow(f, steps, j, n);
    var before := Prefix(f, steps, j).entries;
    assert before == entries[..j];
    assert LastWriter(before, i) by {
      forall m | i < m < |before| ensures StepKey(before[m].step) != StepKey(before[i].step) {
        assert before[m] == entries[m];
      }
    }
    StoredOutputs(f, steps, j);
  }

  /** The key a non-negative step number is stored under, wrapped in `$$`, is a reference the pattern revision finds. */
  lemma StepKeyIsPlaceholder(k: nat)
    ensures IsPlaceholder(Wrap(StepKey(Num(k))))
  {
    StepKeyOfNumber(k);
    StepReference(k);
  }

  /**
   * Data flow between steps: when step `j`'s input is, or holds under
   * `name`, the reference `$$STEP_<n>_OUTPUT$$` to an earlier logged step `i`
   * that no step in between overwrote, step `j`'s agent is sent step `i`'s
   * output in its place. The pattern revision recognises only references
   * whose step number is a non-negative integer.
   */
  lemma ReferenceReachesAgent(rev: Revision, edition: Edition, env: Env, steps: seq<Value>, n: nat, i: nat, j: nat, name: string)
    requires n <= |steps|
    requires var entries := Prefix(StepOf(rev, edition, env), steps, n).entries;
      && i < j < |entries|
      && (forall m :: i < m < j ==> StepKey(entries[m].step) != StepKey(entries[i].step))
      && (rev == K15 ==> entries[i].step.Num? && entries[i].step.n >= 0)
    ensures var entries := Prefix(StepOf(rev, edition, env), steps, n).entries;
      var ref := Str(Wrap(StepKey(entries[i].step)));
      && (entries[j].plannedInput == ref ==> entries[j].resolvedContext == entries[i].output)
      && (entries[j].plannedInput.Obj? && Get(entries[j].plannedInput.fields, name) == ref ==>
            entries[j].resolvedContext.Obj? && Get(entries[j].resolvedContext.fields, name) == entries[i].output)
  {
    var f := StepOf(rev, edition, env);
    var entries := Prefix(f, steps, n).entries;
    var key := StepKey(entries[i].step);
    StepsLog(rev, edition, env);
    LogsKeyed(f);
    StoredBeforeStep(f, steps, n, i, j);
    EntryInputResolved(rev, edition, env, steps, n, j);
    var state := Prefix(f, steps, j).state;
    if rev == K15 {
      StepKeyIsPlaceholder(entries[i].step.n);
    }
    var input := entries[j].plannedInput;
    if input == Str(Wrap(key)) {
      ReferenceLeafResolves(rev, key, state);
    }
    if input.Obj? && Get(input.fields, name) == Str(Wrap(key)) {
      ReferenceFieldResolves(rev, input.fields, name, key, state);
    }
  }

  /** A step that fails or escapes adds no entry and writes no state key. */
  lemma HaltingStepChangesNothing(f: (State, Value) -> StepResult, steps: seq<Value>, k: nat)
    requires k < |steps|
    requires Prefix(f, steps, k).halt.None? && Prefix(f, steps, k + 1).halt.Some?
    ensures Prefix(f, steps, k + 1).state == Prefix(f, steps, k).state
    ensures Prefix(f, steps, k + 1).entries == Prefix(f, steps, k).entries
  {
  }

  /** Every entry a run logs carries telemetry consistent with its agent. */
  lemma LoggedTelemetryOk(f: (State, Value) -> StepResult, steps: seq<Value>, n: nat)
    requires n <= |steps| && Logs(f)
    ensures forall j :: 0 <= j < |Prefix(f, steps, n).entries| ==> TelemetryOk(Prefix(f, steps, n).entries[j])
  {
    EntriesCount(f, steps, n);
    EntriesAreResults(f, steps, n);
    forall j | 0 <= j < |Prefix(f, steps, n).entries| ensures TelemetryOk(Prefix(f, steps, n).entries[j]) {
      assert j < n;
      var e := Prefix(f, steps, n).entries[j];
      var r := f(Prefix(f, steps, j).state, steps[j]);
      assert r.Completed? && e == r.entry;
    }
  }

  /** An agent the registry does not know stops the run at that step. */
  lemma UnknownAgentFails(rev: Revision, edition: Edition, env: Env, state: State, step: Value)
    requires step.Obj? && GetHandler(edition, Get(step.fields, "agent")).Err?
    ensures RunStep(rev, edition, env, state, step).Failed?
    ensures rev == K15 ==>
      RunStep(rev, edition, env, state, step).status
        == StepFailure(K15, Get(step.fields, "step"), Get(step.fields, "agent"), GetHandler(edition, Get(step.fields, "agent")).error)
    ensures rev == Lenient ==> RunStep(rev, edition, env, state, step).status == "Failed at Step " + StrForm(Get(step.fields, "step"))
  {
  }

  /** In commons/ch9/engine.py a malformed step stops the run before any handler is looked up. */
  lemma MalformedStepStops(edition: Edition, env: Env, state: State, step: Value)
    requires step.Obj?
    requires !WellFormedStep(Get(step.fields, "step"), Get(step.fields, "agent"), Get(step.fields, "input"))
    ensures RunStep(Strict, edition, env, state, step) == Failed("Failed during Execution (Invalid Plan Structure)")
  {
  }

  /** In commons/ch9/engine.py a reference to a missing output stops the run at that step. */
  lemma MissingReferenceFails(edition: Edition, env: Env, state: State, step: Value)
    requires step.Obj? && WellFormedStep(Get(step.fields, "step"), Get(step.fields, "agent"), Get(step.fields, "input"))
    requires GetHandler(edition, Get(step.fields, "agent")).Ok?
    requires ResolveStrict(Get(step.fields, "input"), state).Err?
    ensures RunStep(Strict, edition, env, state, step) == Failed("Failed at Step " + StrForm(Get(step.fields, "step")))
  {
  }

  /**
   * An agent whose handler raises fails the step with the revision's status:
   * k15 names the step, the agent and the error, the others only the step.
   */
  lemma HandlerErrorFails(rev: Revision, edition: Edition, env: Env, state: State, step: Value)
    requires step.Obj?
    requires rev == Strict ==> WellFormedStep(Get(step.fields, "step"), Get(step.fields, "agent"), Get(step.fields, "input"))
    requires GetHandler(edition, Get(step.fields, "agent")).Ok?
    requires ResolveFor(rev, Get(step.fields, "input"), state).Ok?
    requires env.handle(GetHandler(edition, Get(step.fields, "agent")).value,
                        CreateMessage("Engine", ResolveFor(rev, Get(step.fields, "input"), state).value, Null)).Err?
    ensures RunStep(rev, edition, env, state, step)
      == Failed(StepFailure(rev, Get(step.fields, "step"), Get(step.fields, "agent"),
                            env.handle(GetHandler(edition, Get(step.fields, "agent")).value,
                                       CreateMessage("Engine", ResolveFor(rev, Get(step.fields, "input"), state).value, Null)).error))
  {
  }

  // ---------------------------------------------------------------------------
  // Properties of a whole run.
  // ---------------------------------------------------------------------------

  /** When connecting or planning fails, no step runs and the run returns None. */
  lemma PlanningFailure(rev: Revision, edition: Edition, env: Env)
    requires Plan(rev, env).Err?
    ensures Engine(rev, edition, env).outcome == Returned(Null)
    ensures Engine(rev, edition, env).entries == []
    ensures Engine(rev, edition, env).status == Plan(rev, env).error
    ensures rev == Strict && env.connectError.None? ==> Engine(rev, edition, env).status == "Failed during Planning"
  {
  }

  /** No step of `f` fails with status `status`. */
  ghost predicate NeverFailsWith(f: (State, Value) -> StepResult, status: string) {
    forall state, step :: f(state, step).Failed? ==> f(state, step).status != status
  }

  /** The loop halts only with a status some step failed with. */
  lemma {:induction false} StopStatus(f: (State, Value) -> StepResult, steps: seq<Value>, n: nat, status: string)
    requires n <= |steps| && NeverFailsWith(f, status)
    ensures Prefix(f, steps, n).halt != Some(Stop(status))
    decreases n
  {
    if n > 0 {
      StopStatus(f, steps, n - 1, status);
    }
  }

  /** How a run is read off the loop over its plan. */
  lemma EngineOfLoop(rev: Revision, edition: Edition, env: Env)
    requires Plan(rev, env).Ok? && Iterate(Plan(rev, env).value).Ok?
    ensures var steps := Iterate(Plan(rev, env).value).value;
      var p := Prefix(StepOf(rev, edition, env), steps, |steps|);
      && Engine(rev, edition, env).entries == p.entries
      && Engine(rev, edition, env).plan == Plan(rev, env).value
      && (p.halt.None? <==> Engine(rev, edition, env).status == "Success")
      && (p.halt.Some? && p.halt.value.Stop? ==>
            Engine(rev, edition, env) == Run(Returned(Null), Plan(rev, env).value, p.entries, p.halt.value.status, Null))
      && (p.halt.Some? && p.halt.value.Escape? ==>
            Engine(rev, edition, env) == Run(Raised(p.halt.value.error), Plan(rev, env).value, p.entries, "Initialized", Null))
      && (p.halt.None? ==>
            Engine(rev, edition, env).finalOutput == StateGet(p.state, FinalKey(|steps|), Null))
  {
    var steps := Iterate(Plan(rev, env).value).value;
    StopStatus(StepOf(rev, edition, env), steps, |steps|, "Success");
  }

  /** A step that does not complete decides the rest of the loop. */
  lemma HaltStops(f: (State, Value) -> StepResult, steps: seq<Value>, k: nat)
    requires k < |steps| && Prefix(f, steps, k).halt.None? && !f(Prefix(f, steps, k).state, steps[k]).Completed?
    ensures Prefix(f, steps, |steps|) == Advance(Prefix(f, steps, k), f(Prefix(f, steps, k).state, steps[k]))
  {
    HaltIsFinal(f, steps, k + 1, |steps|);
  }

  /** A failing step halts the loop for good, with its status and the entries before it. */
  lemma {:induction false} FailureStops(f: (State, Value) -> StepResult, steps: seq<Value>, k: nat)
    requires k < |steps| && Prefix(f, steps, k).halt.None? && f(Prefix(f, steps, k).state, steps[k]).Failed?
    ensures Prefix(f, steps, |steps|).halt == Some(Stop(f(Prefix(f, steps, k).state, steps[k]).status))
    ensures Prefix(f, steps, |steps|).entries == Prefix(f, steps, k).entries
  {
    HaltIsFinal(f, steps, k + 1, |steps|);
  }

  /**
   * A run that stops at a failing step returns None with a failure status,
   * and the log holds only the steps before it.
   */
  lemma FailFast(rev: Revision, edition: Edition, env: Env, k: nat)
    requires Plan(rev, env).Ok? && Iterate(Plan(rev, env).value).Ok?
    requires k < |Iterate(Plan(rev, env).value).value|
    requires Prefix(StepOf(rev, edition, env), Iterate(Plan(rev, env).value).value, k).halt.None?
    requires RunStep(rev, edition, env, Prefix(StepOf(rev, edition, env), Iterate(Plan(rev, env).value).value, k).state,
                     Iterate(Plan(rev, env).value).value[k]).Failed?
    ensures Engine(rev, edition, env).outcome == Returned(Null)
    ensures Engine(rev, edition, env).finalOutput == Null
    ensures Engine(rev, edition, env).status != "Success"
    ensures Engine(rev, edition, env).status
      == RunStep(rev, edition, env, Prefix(StepOf(rev, edition, env), Iterate(Plan(rev, env).value).value, k).state,
                 Iterate(Plan(rev, env).value).value[k]).status
    ensures |Engine(rev, edition, env).entries| == k
  {
    var f := StepOf(rev, edition, env);
    var steps := Iterate(Plan(rev, env).value).value;
    assert f(Prefix(f, steps, k).state, steps[k]).Failed?;
    FailureStops(f, steps, k);
    StepsLog(rev, edition, env);
    EntriesFollowPlan(f, steps, k);
    EngineOfLoop(rev, edition, env);
  }

  /**
   * The final output is looked up under the key of the plan's length, not of
   * any declared step number: when no completed step declared that number, a
   * successful run returns None.
   */
  lemma FinalOutputByPlanLength(rev: Revision, edition: Edition, env: Env)
    requires Engine(rev, edition, env).status == "Success"
    ensures Plan(rev, env).Ok? && Iterate(Plan(rev, env).value).Ok?
    ensures Engine(rev, edition, env).outcome == Returned(Engine(rev, edition, env).finalOutput)
    ensures (forall j :: 0 <= j < |Engine(rev, edition, env).entries| ==>
               StepKey(Engine(rev, edition, env).entries[j].step) != FinalKey(|Iterate(Plan(rev, env).value).value|))
      ==> Engine(rev, edition, env).finalOutput == Null
  {
    var plan := Plan(rev, env).value;
    var steps := Iterate(plan).value;
    StepsLog(rev, edition, env);
    StateMatchesEntries(StepOf(rev, edition, env), steps, |steps|);
    EngineOfLoop(rev, edition, env);
  }

  /** A successful run's output is the output of the last step numbered like the plan's length. */
  lemma FinalOutputOfLastStep(rev: Revision, edition: Edition, env: Env, j: nat)
    requires Engine(rev, edition, env).status == "Success"
    requires Plan(rev, env).Ok? && Iterate(Plan(rev, env).value).Ok?
    requires j < |Engine(rev, edition, env).entries|
    requires StepKey(Engine(rev, edition, env).entries[j].step) == FinalKey(|Iterate(Plan(rev, env).value).value|)
    requires LastWriter(Engine(rev, edition, env).entries, j)
    ensures Engine(rev, edition, env).finalOutput == Engine(rev, edition, env).entries[j].output
  {
    var steps := Iterate(Plan(rev, env).value).value;
    var f := StepOf(rev, edition, env);
    var p := Prefix(f, steps, |steps|);
    EngineOfLoop(rev, edition, env);
    StepsLog(rev, edition, env);
    StateMatchesEntries(f, steps, |steps|);
    assert p.state[StepKey(p.entries[j].step)] == p.entries[j].output;
  }

  /** A step numbered `n` stores its output under the key the final lookup uses for a plan of length `n`. */
  lemma StepKeyOfNumber(n: nat)
    ensures StepKey(Num(n)) == FinalKey(n)
  {
  }

  /** Every entry a run logs carries consistent telemetry, and commons/ch9/engine.py logs none. */
  lemma RunTelemetryOk(rev: Revision, edition: Edition, env: Env)
    ensures forall j :: 0 <= j < |Engine(rev, edition, env).entries| ==> TelemetryOk(Engine(rev, edition, env).entries[j])
  {
    if Plan(rev, env).Ok? && Iterate(Plan(rev, env).value).Ok? {
      var steps := Iterate(Plan(rev, env).value).value;
      StepsLog(rev, edition, env);
      LoggedTelemetryOk(StepOf(rev, edition, env), steps, |steps|);
    }
  }
}
