# Context Engine: a verified model

This project models the deterministic core of the "Context Engine" from
*Context Engineering for Multi-Agent Systems*. A Planner turns a goal into a
JSON plan of steps `{"step": n, "agent": name, "input": {...}}`. An Executor
runs the steps strictly in order. Before each step it resolves
`$$STEP_<n>_OUTPUT$$` references against a run-local state. It then dispatches
the step through the Agent Registry to a specialist agent (Librarian,
Researcher, Summarizer, Writer), wrapped in an MCP envelope. It stores the
agent's output under `STEP_<n>_OUTPUT` and logs the step to an
`ExecutionTrace`. The run stops at the first failure. The final output is
read from `STEP_<len(plan)>_OUTPUT`.

The model covers several generations of the engine and its agents:

- **Engines.** There are three `context_engine` revisions:
  - `engine_k15.py`: a pattern-based resolver and a token-telemetry trace;
  - `engine.py`: a lenient whole-string resolver and a token-telemetry trace;
  - `ch9/engine.py`: a strict resolver, plan-shape validation and step-structure checks, and a trace without tokens.
- **Registries.** Two agent registries, with three and four agents, and their capability text.
- **Agents.** All versions of the agents:
  - Writer: four versions;
  - Researcher: the plain version and the high-fidelity version that sanitises and cites sources;
  - Librarian and Summarizer.
- **Helpers.** `create_mcp_message` and the `helper_sanitize_input` prompt-injection screen.

Layout, one Dafny module per file:

| module | models |
|---|---|
| `Wrappers` | `Option`/`Result` |
| `Json` | Python values: truthiness, `or`, `dict.get`, `d[k]`, `str()` |
| `Text` | `startswith`/`endswith`, `in`, `replace`, `strip`, `join` |
| `Order` | Python string order and `sorted` |
| `Placeholder` | the `\$\$(STEP_\d+_OUTPUT)\$\$` scanner: `re.findall` and `re.fullmatch` |
| `Resolver` | the three `resolve_dependencies` |
| `Sanitizer` | `helper_sanitize_input` |
| `Mcp` | `create_mcp_message` |
| `Registry` | both `AgentRegistry` classes |
| `Trace` | `ExecutionTrace`, as a class with mutable fields |
| `Planner` | plan extraction and ch9 validation |
| `Executor` | one step of the loop, and the run as a function of the plan |
| `EngineK15`, `EngineLenient`, `EngineCh9` | the three `context_engine` loops, as methods |
| `Agents` | Librarian, Summarizer, plain Researcher |
| `HiFiResearch` | the sanitising, citing Researcher, with its collection loop as a method |
| `Writers` | the four Writers |

**How the engine loops are modelled.** The loops are imperative methods over
an `ExecutionTrace` object. Each is proved to produce exactly
`Executor.Engine(rev, edition, env)`, a functional description of the run.
The run's properties are proved as lemmas about `Engine` and about `Prefix`,
the state after the first `n` steps:

- fail-fast;
- keys and state agree;
- the final output is chosen by plan length;
- telemetry bounds.

**How external services are modelled.** The language model, the vector
search, the Pinecone connection and token counting are oracles passed in as
parameters:

- `Services.search` and `Services.generate` for the agents;
- `Env.connectError`, `Env.planReply`, `Env.handle` and `Env.tokens` for the engine.

Where the design description and the code differ, the model follows the code:

- The final output is read from `STEP_<len(plan)>_OUTPUT`, not from the highest declared step number. It is therefore `None` on "Success" when the step numbers do not run 1..n.
- Only the ch9 planner rejects a plan that is not a list or is empty. The k15 and lenient planners return `plan_data["plan"]` whatever it holds. Iterating a dict plan visits its keys, and iterating a string plan visits its characters; `step.get` then raises outside the `try`. The model returns that as `Raised`, not as a trace status.
- The status strings are the code's own:
  - k15: `"Init Error: <e>"` and `"Fatal Step Error: Step n (agent) failed: <e>"`;
  - lenient: `"Failed during Planning/Init: <e>"` and `"Failed at Step n"`;
  - ch9: `"Failed during Initialization (Pinecone Connection)"`, `"Failed during Planning"`, `"Failed during Execution (Invalid Plan Structure)"` and `"Failed at Step n"`.
- Nothing stops a second `finalize`. `Trace.ExecutionTrace.Finalize` is unconditional, as in the code.

## Model

| member | source | states |
|---|---|---|
| Mcp.CreateMessage | commons/ch7/helpers.py:65-72 | the envelope always carries protocol version "2.0 (Context Engine)" and the sender and content unchanged; metadata is the argument when truthy and `{}` otherwise, so it is always a dict or the caller's truthy value |
| Mcp.CreateMessageFields | commons/ch7/helpers.py:67-72 | reading `content`, `sender` and `protocol_version` back from the dict form of an envelope gives what was put in (the round trip agents rely on with `mcp_message['content']`) |
| Sanitizer.Fold | commons/ch7/helpers.py:126 | case folding used by `re.IGNORECASE`: upper-case ASCII letters map to lower case, every other character is unchanged |
| Sanitizer.HitsCorrect | commons/ch7/helpers.py:115-126 | the executable scanner for a pattern succeeds exactly when the declarative `re.search` meaning holds (a phrase occurs case-insensitively; `you are now in.*mode` on one line; any of the four command words) |
| Sanitizer.FirstHit | commons/ch7/helpers.py:125-128 | the patterns are tried in order: the result is the first pattern that matches, and none means no pattern matches |
| Sanitizer.Sanitize | commons/ch7/helpers.py:109-131 | accepted text is returned unchanged; a rejection carries the fixed "Input sanitization failed" message |
| Sanitizer.SanitizeAccepts | commons/ch7/helpers.py:125-131 | text is accepted if and only if none of the six injection patterns matches it |
| Sanitizer.SanitizeIdempotent | commons/ch7/helpers.py:131 | sanitising accepted text again accepts it with the same result |
| Sanitizer.SanitizeRejectsPhrase | commons/ch7/helpers.py:116-122 | any text containing one of the listed phrases, anywhere, is rejected |
| Sanitizer.SanitizeRejectsModeSwitch | commons/ch7/helpers.py:118 | "you are now in" followed by "mode" with no newline between them is rejected, whatever surrounds it |
| Placeholder.WrapKeyOf | commons/engine/engine_k15.py:89 | a placeholder is exactly `$$` + its captured key + `$$` |
| Placeholder.PlaceholderEnds | commons/engine/engine_k15.py:89 | every pattern-resolver placeholder also starts and ends with `$$` |
| Placeholder.MatchAtSound | commons/engine/engine_k15.py:89 | a match found at a position is a complete `$$STEP_<digits>_OUTPUT$$` there |
| Placeholder.MatchAtComplete | commons/engine/engine_k15.py:89 | conversely every placeholder at a position is found, with its length (digits are taken greedily) |
| Placeholder.DigitRun | commons/engine/engine_k15.py:89 | the `\d+` run is maximal: all digits, followed by a non-digit or the end |
| Placeholder.FindAllEmptyIff | commons/engine/engine_k15.py:93-95 | `re.findall` returns no keys if and only if the string contains no placeholder |
| Placeholder.FindAllFromAt | commons/engine/engine_k15.py:93 | a placeholder found at the scan position contributes its key first, and scanning resumes after it (non-overlapping matches) |
| Placeholder.FindAllSingle | commons/engine/engine_k15.py:93 | text with one placeholder and no other `$` yields exactly that placeholder's key |
| Placeholder.FindAllExact | commons/engine/engine_k15.py:93-99 | a bare placeholder yields exactly its own key |
| Placeholder.FindAllOfPadded | commons/engine/engine_k15.py:98-99 | when the stripped value is a placeholder, `matches[0]` is its key |
| Placeholder.FindAllSplice | commons/engine/engine_k15.py:93 | in text spliced from placeholders and `$`-free gaps, `re.findall` reports every placeholder's key in order, repeats included |
| Placeholder.ReplaceSkipReference | commons/engine/engine_k15.py:105 | `str.replace` of one placeholder copies a different placeholder, provided what follows it cannot complete a reference across its closing `$$` |
| Placeholder.ReplaceSplice | commons/engine/engine_k15.py:105 | `str.replace` of a placeholder over spliced text replaces exactly the pieces equal to it, when the text between pieces is non-empty and does not begin with `S` |
| Placeholder.StepReference | commons/engine/engine_k15.py:169 | the reference `$$STEP_<n>_OUTPUT$$` to any step number is a placeholder whose key is the state key `STEP_<n>_OUTPUT` |
| Resolver.StateGet | commons/engine/engine.py:85 | `state.get(key, default)` |
| Resolver.MapStringsShaped | commons/engine/engine.py:86-90 | resolution keeps the shape: object keys and order, list length and order, non-string scalars; only string leaves change |
| Resolver.MapStringsIdentity | commons/engine/engine.py:82-91 | rewriting leaves that the rewrite maps to themselves returns the input unchanged |
| Resolver.RefKey | commons/engine/engine.py:84 | `value[2:-2]`: wrapping the key back in `$$` gives the value; strings shorter than four give the empty key |
| Resolver.RefKeyOfWrap | commons/engine/engine.py:83-84 | any `$$key$$` is recognised as a reference with that key |
| Resolver.LenientLeaf | commons/engine/engine.py:83-85 | a `$$…$$` string becomes the stored value when its key is in state and stays as it is otherwise; other strings are unchanged |
| Resolver.StrictLeaf | commons/ch9/engine.py:112-118 | fails exactly on a `$$…$$` string whose key is missing, with the "Dependency Error: Reference … not found in state." message; otherwise agrees with the lenient resolver |
| Resolver.StrictMatchesLenient | commons/ch9/engine.py:108-124 | strict resolution fails if and only if some string leaf is a missing reference, and when it succeeds its result equals the lenient resolver's |
| Resolver.LenientWithoutRefs | commons/engine/engine.py:83-90 | a value with no `$$…$$` string leaf resolves to itself whatever the state |
| Resolver.LenientEmptyState | commons/engine/engine.py:79-91 | with an empty state, lenient resolution is the identity |
| Resolver.Replacement | commons/engine/engine_k15.py:104 | an absent key is replaced by its own placeholder and a stored string by itself |
| Resolver.ResolvePatternLeaf | commons/engine/engine_k15.py:91-106 | the loop over `matches` doing `value.replace` computes the pattern resolver's result for a string |
| Resolver.SubstituteAllMissing | commons/engine/engine_k15.py:103-105 | replacing only keys absent from state changes nothing |
| Resolver.PatternLeafWithoutRefs | commons/engine/engine_k15.py:93-95 | a string without a placeholder is returned unchanged whatever the state |
| Resolver.PatternEmptyState | commons/engine/engine_k15.py:82-114 | with an empty state, pattern resolution is the identity on every value |
| Resolver.PatternWholeReference | commons/engine/engine_k15.py:98-100 | a string that is one placeholder after stripping yields the raw stored value (of any type) when the key is present, and the original unstripped string when it is missing |
| Resolver.PatternEmbedded | commons/engine/engine_k15.py:102-106 | a placeholder embedded in text is replaced by the string form of its value, or kept verbatim if the key is missing, and the surrounding text is untouched |
| Resolver.SubstituteSplice | commons/engine/engine_k15.py:103-105 | the replacement loop over spliced text ends with every placeholder replaced by its `str()` replacement, whatever the order and repetition of the keys still to process |
| Resolver.PatternEmbeddedMany | commons/engine/engine_k15.py:91-106 | any number of placeholders embedded in `$`-free text, with repeats and with present and missing keys mixed, are each replaced by the `str()` of the stored value or kept when missing, and the text around and between them is kept |
| Resolver.PatternOverlapExample | commons/engine/engine_k15.py:102-106 | for `$$<k2>$$<k1>$$<k1>$$` with `k2` missing and `k1` stored, the replacement loop yields `$$<k2>` + the stored value + `<k1>$$`: the whole-text `replace` of `$$<k1>$$` breaks the missing placeholder and leaves the second reference in place, so the result differs from replacing each placeholder on its own |
| Resolver.LenientReferenceResolves | commons/engine/engine.py:83-85 | a string that is exactly `$$key$$` for a stored key becomes the stored value, in the lenient and in the strict resolver |
| Resolver.PatternReferenceResolves | commons/engine/engine_k15.py:97-100 | a string that is exactly one placeholder for a stored key becomes the stored value itself |
| Resolver.ExactReferenceLiteral | commons/engine/engine.py:83-84 | every pattern placeholder is also a whole-string `$$…$$` reference with the same key |
| Resolver.PatternAgreesOnExactReference | commons/engine/engine_k15.py:97-100 | on a bare placeholder the pattern resolver and the lenient resolver agree |
| Registry.Find | commons/engine/registry.py:21 | `self.registry.get(name)` finds a registered agent of that name, and nothing only if none is registered |
| Registry.GetHandler | commons/engine/registry.py:20-36 | a handler is returned if and only if the name is a registered agent (else the "Agent '…' not found in registry." error); it is that agent |
| Registry.HandlerBindsNeeds | commons/engine/registry.py:27-36 | each handler binds exactly its agent's dependencies: Librarian client/index/embedding model/context namespace, Researcher client/index/generation and embedding models/knowledge namespace, Writer and Summarizer client/generation model; the final `return handler_func` fall-through is modelled as `Unbound` and is never returned for a registered name |
| Registry.RegisteredNames | commons/engine/registry.py:11-18 | the four-agent registry knows Librarian, Researcher, Writer and Summarizer; the three-agent one exactly the first three, so "Summarizer" is an error there |
| Registry.EditionsAgree | commons/registry.py:15-28 | on every name the three-agent registry accepts, both registries return the same handler and binding |
| Registry.CapabilityOf | commons/engine/registry.py:45-70 | each listed capability describes the agent it is listed for |
| Registry.Capabilities | commons/engine/registry.py:41-71 | the description lists the registered agents in the order Librarian, Researcher, (Summarizer,) Writer |
| Registry.DescriptionMatchesRegistry | commons/registry.py:30-55 | an agent is described if and only if it is registered, in both editions |
| Registry.SectionNamesAgent | commons/engine/registry.py:45 | each section names its agent as `AGENT: <name>` |
| Registry.InputLineQuotesKey | commons/engine/registry.py:48 | each input line quotes the exact input key the agent reads |
| Registry.SectionQuotesInput | commons/engine/registry.py:45-49 | each agent's section quotes every one of its input keys |
| Registry.DescriptionMentions | commons/engine/registry.py:38-71 | the whole description text names every listed agent and quotes every input key of it |
| Trace.TokensSaved | commons/engine/engine_k15.py:38 | savings never exceed the tokens in, are 0 for every agent but Summarizer, and for Summarizer are exactly `in - out` when the output is smaller, 0 otherwise |
| Trace.ExecutionTrace.constructor | commons/engine/engine_k15.py:13-21 | a new trace has the goal, no plan, no steps, status "Initialized" and no final output |
| Trace.ExecutionTrace.LogPlan | commons/engine/engine_k15.py:23-25 | records the plan and changes nothing else |
| Trace.ExecutionTrace.LogStep | commons/ch9/engine.py:25-34 | appends exactly one entry (step, agent, planned input, resolved input, output content) and leaves earlier entries, plan, status and output unchanged |
| Trace.ExecutionTrace.LogStepWithTokens | commons/engine/engine_k15.py:27-39 | appends exactly one entry carrying tokens in/out and the savings of `TokensSaved`; nothing else changes and the telemetry invariant is kept |
| Trace.ExecutionTrace.Finalize | commons/engine/engine_k15.py:42-46 | sets status and final output, keeps plan and steps |
| Trace.SavingsBounded | commons/engine/engine.py:37 | in every logged entry savings are at most the tokens in, and 0 for agents other than Summarizer |
| Planner.ExtractPlan | commons/engine/engine_k15.py:75-76 | `plan_data["plan"]` succeeds if and only if the reply is an object with a "plan" key, and returns that key's value |
| Planner.ValidatePlan | commons/ch9/engine.py:86-99 | accepts if and only if the reply is an object whose "plan" is a non-empty list; rejections carry the structure or the empty-plan error |
| Planner.ValidatedPlanExtracted | commons/ch9/engine.py:92-93 | a validated plan is the one the unvalidating planners extract |
| Executor.Plan | commons/ch9/engine.py:132-146 | a connection failure always fails the run before planning; a ch9 plan is a non-empty list; each revision's failure status is its own text |
| Executor.Iterate | commons/engine/engine_k15.py:137 | `for step in plan` iterates list items, dict keys and string characters, and raises on anything else |
| Executor.StepFailure | commons/engine/engine_k15.py:180-184 | a step failure never reads "Success" |
| Executor.ResolveFor | commons/engine/engine_k15.py:155 | only the strict (ch9) resolver can fail |
| Executor.RunStep | commons/engine/engine_k15.py:137-184 | a step escapes exactly when it is not an object; a completed step stores under `STEP_<step>_OUTPUT`, logs its own step, agent and planned input with the output it stored, was dispatched to a registered agent, has telemetry exactly outside ch9 and passed the ch9 structure check; its logged resolved context is the revision's resolution of the planned input against the state before the step, that context was sent to the agent in an `Engine` message, and the stored output is the content of the agent's reply; conversely a step completes whenever it is an object, passes the ch9 check, names a registered agent, resolves and gets a reply; a failed step never reports "Success" |
| Executor.StepOfIsStep | commons/engine/engine_k15.py:137-184 | the loop body of each revision is its `RunStep` |
| Executor.HaltOf | commons/engine/engine_k15.py:180-184 | a step's failure stops the run with a status, an escape ends it with an exception |
| Executor.LoopStep | commons/engine/engine_k15.py:168-184 | a completed step extends the run by its state write and log entry; any other result ends the whole run there |
| Executor.StepsLog | commons/engine/engine.py:142-153 | every revision's step logs the step, agent and planned input it ran and stores the output it logged |
| Executor.LogsKeyed | commons/engine/engine.py:142-153 | a logged step was stored under the key of its own step number |
| Executor.HaltIsFinal | commons/engine/engine_k15.py:180-184 | once the run stops, no later step changes anything |
| Executor.PrefixExtends | commons/engine/engine_k15.py:137-178 | each completed step appends exactly its own entry and writes exactly its own key |
| Executor.EntriesCount | commons/engine/engine_k15.py:137-184 | after n steps there are at most n entries, exactly n if the run has not stopped |
| Executor.EntriesAreResults | commons/engine/engine_k15.py:137-178 | entry j is what step j produced when run on the state left by the steps before it |
| Executor.EntriesFollowPlan | commons/engine/engine_k15.py:137-178 | the trace logs the plan's steps in plan order, one entry per completed step, each naming that step's number, agent and planned input |
| Executor.LoggedKeysStored | commons/engine/engine.py:142-153 | every logged step's key is in the state |
| Executor.StoredKeysLogged | commons/engine/engine.py:142 | every state key was written by a logged step: nothing else enters the state |
| Executor.StoredOutputs | commons/engine/engine.py:142-153 | the state holds, under each key, the output of the last logged step with that key |
| Executor.StateMatchesEntries | commons/engine/engine.py:142-153 | the state's keys are exactly the logged steps' keys, and the last writer's output is the stored value |
| Executor.EntriesGrow | commons/engine/engine_k15.py:168-178 | the trace is only appended to: the entries after k steps begin the entries after any later step |
| Executor.EntryInputResolved | commons/engine/engine_k15.py:155-171 | entry j's resolved context is its planned input resolved against the state the entries before it left, and its output is the content of the reply the agent gave to that context |
| Executor.ReferenceLeafResolves | commons/engine/engine_k15.py:155 | a planned input that is exactly the reference to a stored key resolves to the stored value in every revision |
| Executor.ReferenceFieldResolves | commons/engine/engine_k15.py:155 | a dictionary field that is exactly the reference to a stored key holds the stored value after resolution, in every revision |
| Executor.StoredBeforeStep | commons/engine/engine_k15.py:168-169 | before step j runs, the key of an earlier logged step i not overwritten in between holds step i's output |
| Executor.StepKeyIsPlaceholder | commons/engine/engine_k15.py:169 | the key a non-negative step number is stored under, wrapped in `$$`, is a placeholder the pattern resolver finds |
| Executor.ReferenceReachesAgent | commons/engine/engine_k15.py:137-171 | data flow between steps: when step j's input is, or holds in a field, the reference `$$STEP_<i>_OUTPUT$$` to an earlier logged step i that no step in between overwrote, step j's agent receives step i's output in its place, in every revision |
| Executor.HaltingStepChangesNothing | commons/engine/engine_k15.py:169-184 | the step that stops the run writes no state key and logs no entry |
| Executor.LoggedTelemetryOk | commons/engine/engine.py:37 | every logged entry meets the savings bound |
| Executor.UnknownAgentFails | commons/engine/engine_k15.py:144-152 | a step naming an unregistered agent fails, with "Fatal Step Error: Step n (agent) failed: Agent '…' not found in registry." in k15 and "Failed at Step n" in the lenient engine |
| Executor.MalformedStepStops | commons/ch9/engine.py:155-159 | a ch9 step with a falsy step number or agent, or a None input, fails with "Failed during Execution (Invalid Plan Structure)" |
| Executor.MissingReferenceFails | commons/ch9/engine.py:172-183 | a well-formed ch9 step whose input references a missing key fails with "Failed at Step n" |
| Executor.HandlerErrorFails | commons/engine/engine_k15.py:180-184 | a step whose agent's handler raises fails with the revision's status built from that error: "Fatal Step Error: Step n (agent) failed: <e>" in k15, "Failed at Step n" in the lenient and ch9 engines (commons/engine/engine.py:157-161, commons/ch9/engine.py:179-183) |
| Executor.PlanningFailure | commons/ch9/engine.py:139-146 | a planning or connection failure returns None with no steps and the revision's failure status; for ch9 with a connection, "Failed during Planning" |
| Executor.StopStatus | commons/engine/engine.py:157-161 | if no step can fail with a given status, the run never stops with it |
| Executor.EngineOfLoop | commons/engine/engine_k15.py:136-190 | the run's entries are the loop's; the status is "Success" exactly when no step stopped the loop; a stop gives its status, an escape raises |
| Executor.HaltStops | commons/engine/engine_k15.py:180-184 | the first step that does not complete ends the whole loop |
| Executor.FailureStops | commons/engine/engine_k15.py:180-184 | when step k fails, the run stops with that step's status and only steps before k are logged |
| Executor.FailFast | commons/engine/engine_k15.py:180-184 | when step k is the first to fail, the run returns None with no final output, its status is the failing step's own status (never "Success"), and it holds exactly k entries: no later step runs |
| Executor.FinalOutputByPlanLength | commons/engine/engine_k15.py:186-190 | a successful run returns its final output; if no step's key is `STEP_<len(plan)>_OUTPUT` the output is None, even on "Success" |
| Executor.FinalOutputOfLastStep | commons/engine/engine.py:164-167 | on success the final output is the output of the last step whose key is `STEP_<len(plan)>_OUTPUT` |
| Executor.StepKeyOfNumber | commons/engine/engine_k15.py:169-187 | a step numbered n writes the key the finaliser reads for a plan of length n |
| Executor.RunTelemetryOk | commons/engine/engine_k15.py:38 | every entry of every run meets the savings bound |
| EngineK15.ExecuteStep | commons/engine/engine_k15.py:138-184 | one iteration produces `RunStep`'s result, appends the logged entry only for a completed step and finalises with the failure status otherwise |
| EngineK15.ExecuteSteps | commons/engine/engine_k15.py:136-184 | the for-loop leaves state, entries and stop reason exactly as the run description prescribes |
| EngineK15.ContextEngine | commons/engine/engine_k15.py:116-190 | the returned value and the trace's plan, steps, status and final output are exactly `Engine(K15, …)` |
| EngineLenient.ExecuteStep | commons/engine/engine.py:110-161 | as for k15, with the lenient resolver and "Failed at Step n" |
| EngineLenient.ExecuteSteps | commons/engine/engine.py:109-161 | the loop computes the lenient run |
| EngineLenient.ContextEngine | commons/engine/engine.py:93-167 | result and trace are exactly `Engine(Lenient, …)` |
| EngineCh9.ExecuteStep | commons/ch9/engine.py:150-183 | as for k15, with the structure check, the strict resolver and a trace without telemetry |
| EngineCh9.ExecuteSteps | commons/ch9/engine.py:149-183 | the loop computes the strict run |
| EngineCh9.ContextEngine | commons/ch9/engine.py:126-189 | result and trace are exactly `Engine(Strict, …)`, including the separate connection and planning failures |
| Agents.MetadataField | commons/agents.py:27 | `match['metadata'][key]` succeeds only when both lookups do |
| Agents.BlueprintOf | commons/agents.py:25-27 | the best match must have an id, a score and a `blueprint_json` in its metadata |
| Agents.Librarian | commons/agents.py:7-36 | succeeds only on a truthy `intent_query` (else the fixed error), and answers from the sender "Librarian" with `{"blueprint_json": …}` |
| Agents.LibrarianDefault | commons/agents.py:29-31 | with no search results the Librarian returns the neutral default blueprint |
| Agents.LibrarianBestMatch | commons/agents.py:24-28 | with results it returns the first match's `blueprint_json` |
| Agents.LibrarianAsksTopOne | commons/agents.py:15-22 | the Librarian depends only on the top-1 search in the context namespace |
| Agents.Summarizer | commons/ch6/agents.py:131-168 | succeeds if and only if both `text_to_summarize` and `summary_objective` are truthy and generation succeeds, answering `{"summary": …}` from "Summarizer"; the ch8 and k15 copies are identical |
| Agents.Strings | commons/agents.py:61 | the texts collected are exactly the matches' texts, all strings |
| Agents.SourceTexts | commons/agents.py:61 | every match must have `metadata.text`, in match order |
| Agents.Researcher | commons/agents.py:39-75 | succeeds only on a truthy `topic_query` (else the fixed error), answering from "Researcher" |
| Agents.ResearcherNoData | commons/agents.py:56-58 | with no search results it answers `{"facts": "No data found on the topic."}` without calling the model |
| Agents.ResearcherSynthesises | commons/agents.py:60-72 | any other answer is the model's synthesis of the top-3 texts, under "facts" |
| HiFiResearch.ReadChunk | commons/ch8/agents.py:70-79 | a chunk is kept exactly when its text passes the sanitiser, with that text; a kept chunk carries a source exactly when its metadata has a `source` key, and then the one it names; a chunk without `metadata.text` escapes |
| HiFiResearch.ScreenedReadsAll | commons/ch8/agents.py:69-79 | the loop completes only when every chunk could be read, keeping at most one text per chunk |
| HiFiResearch.ScreenedTextsKept | commons/ch8/agents.py:72-73 | every kept text is the text of a kept chunk |
| HiFiResearch.ScreenedTextsClean | commons/ch8/agents.py:72-73 | every kept text passes the sanitiser |
| HiFiResearch.ScreenedNothingKept | commons/ch8/agents.py:77-83 | when every chunk fails sanitisation nothing is kept |
| HiFiResearch.ScreenedSources | commons/ch8/agents.py:74-76 | a source is collected if and only if a chunk that passed sanitisation names it |
| HiFiResearch.ScreenedStops | commons/ch8/agents.py:69-79 | a chunk that raises anything other than the sanitiser's error ends the loop with that error |
| HiFiResearch.Bullets | commons/ch8/agents.py:101 | one "- s" line per source, in order |
| HiFiResearch.CitesEverySource | commons/ch8/agents.py:101 | the citation block names every source as a bullet |
| HiFiResearch.ResearchAnswer | commons/ch8/agents.py:41-107 | succeeds only on a truthy `topic_query` (else the fixed error), answering from "Researcher" |
| HiFiResearch.ScreenMatches | commons/ch8/agents.py:66-79 | the loop appending texts and adding sources collects exactly the screened texts and the set of their sources, or stops with the same error |
| HiFiResearch.AgentResearcher | commons/engine/agents_k15.py:41-107 | the agent (top_k 15 here, 3 in ch8) computes exactly `ResearchAnswer` |
| HiFiResearch.NoMatchNoData | commons/ch8/agents.py:62-64 | no results give `{"answer": "No data found on the topic.", "sources": []}` |
| HiFiResearch.AllSuspect | commons/ch8/agents.py:81-83 | when every chunk fails sanitisation the answer is the fixed "suspect" message with no sources |
| HiFiResearch.CitedAnswer | commons/ch8/agents.py:85-103 | a cited answer comes from a non-empty screening and a successful generation over the kept texts |
| HiFiResearch.CitesCleanSources | commons/ch8/agents.py:66-103 | a cited answer is the findings then "**Sources:**" then the sorted, duplicate-free list of exactly the sources of the chunks that passed sanitisation; every text sent to the model passed the sanitiser |
| Order.BelowTotal | commons/ch8/agents.py:101 | Python's string order is total |
| Order.BelowTransitive | commons/ch8/agents.py:101 | and transitive |
| Order.BelowIrreflexive | commons/ch8/agents.py:101 | and strict |
| Order.Sorted | commons/ch8/agents.py:101 | `sorted(list(sources))` is strictly increasing and has exactly the set's elements |
| Order.IncreasingUnique | commons/ch8/agents.py:101 | two strictly increasing lists with the same elements are equal, so the citation order is determined by the set |
| Order.SortedList | commons/ch8/agents.py:101 | the selection loop over the set yields a strictly increasing list of exactly its elements |
| Writers.WriterBasic | commons/agents.py:78-122 | a falsy blueprint is an error; then facts if truthy, else previous content if truthy, else the material error; success answers `{"final_output": …}` from "Writer" |
| Writers.BasicPrefersFacts | commons/agents.py:89-94 | with truthy facts, the previous content has no influence |
| Writers.BlueprintString | commons/ch8/agents.py:122 | an object blueprint contributes its `blueprint_json`, anything else itself |
| Writers.FactsOf | commons/ch8/agents.py:125-136 | a string is used as is, a non-object non-string gives None, an object gives `facts`, then (if None) `summary`, then in ch8 `answer_with_sources` |
| Writers.Unpack | commons/ch6/agents.py:84-102 | the brief succeeds exactly when the blueprint is truthy and facts or previous content is truthy; material is the facts if truthy, else the previous content |
| Writers.WriterStructured | commons/ch8/agents.py:113-164 | an invalid brief is the shared error; otherwise the bare generated text from "Writer", with the blueprint and material in the prompt |
| Writers.WriterCh6AsWritten | commons/ch6/agents.py:79-125 | the ch6 Writer as written: same validation, but the prompt carries only the material |
| Writers.Ch6BlueprintIgnored | commons/ch6/agents.py:111-113 | two different valid blueprints with the same facts give the same ch6 output |
| Writers.BriefUnpacks | commons/ch6/agents.py:88-102 | a message with a non-empty string blueprint and string facts unpacks to exactly those |
| Writers.StructuredCarriesBlueprint | commons/ch8/agents.py:150-152 | every successful structured Writer prompted the model with the resolved blueprint string |
| Writers.Ch8ReadsCitedAnswer | commons/ch8/agents.py:132-134 | the ch8 Writer takes the hi-fi Researcher's `answer_with_sources` as its material |
| Writers.StructuredReadsSummary | commons/ch6/agents.py:96-97 | both structured Writers take a Summarizer's `summary` as material |
| Writers.ExtractText | commons/engine/agents_k15.py:131-134 | non-objects pass through; an object gives the first truthy `blueprint_json`/`summary`/`facts`, else its string form, so an object is always truthy afterwards |
| Writers.WriterK15 | commons/engine/agents_k15.py:113-151 | non-dict content is an error; otherwise success if and only if the extracted blueprint is truthy and the extracted facts or previous content is truthy, answering `{"report": …}` from "Writer" |
| Writers.NamedBlueprintFirst | commons/engine/agents_k15.py:120 | the raw blueprint is the first truthy of `blueprint`, `blueprint_json`, `instruction` |
| Writers.NamedFactsFirst | commons/engine/agents_k15.py:121 | the raw facts are the first truthy of `facts`, `evidence`, `data` |
| Writers.PositionalFallback | commons/engine/agents_k15.py:124-128 | when no named key is truthy, the blueprint is the first value and the facts the second, in insertion order |
| Writers.BlueprintTakenAsEvidence | commons/engine/agents_k15.py:121-128 | when the facts sit under an unrecognised key before `blueprint`, the positional fallback takes the blueprint itself as evidence |
| Writers.K15ReadsSummary | commons/engine/agents_k15.py:131-148 | a Summarizer's output passed as facts contributes its `summary` |
| Json.Or | commons/engine/agents_k15.py:120 | Python `a or b`: truthy if either is, and `a` itself when `a` is truthy |
| Json.Lookup | commons/engine/engine_k15.py:76 | a key is found if and only if the object has a field with that key, and its value is that field's |
| Json.Index | commons/agents.py:11 | `d[key]` succeeds if and only if `d` is a dict with that key |
| Json.DictGet | commons/agents.py:11 | `.get` succeeds exactly on dicts |
| Json.NatToStringRoundTrip | commons/engine/engine_k15.py:169 | the decimal form of a step number is all digits and parses back to the number |
| Json.NatToStringInjective | commons/engine/engine_k15.py:169 | different step numbers write different state keys |
| Json.StrFormOfContainer | commons/engine/agents_k15.py:133 | `str()` of a list or dict is non-empty, hence truthy |
| Text.ReplaceBySelf | commons/engine/engine_k15.py:104-105 | replacing a placeholder by itself (missing key) leaves the text unchanged |
| Text.ReplaceAbsent | commons/engine/engine_k15.py:105 | replacing an absent pattern changes nothing |
| Text.ReplaceSingle | commons/engine/engine_k15.py:105 | replacing the single occurrence splices the replacement in its place |
| Text.Strip | commons/engine/engine_k15.py:98 | `strip()` removes exactly the leading and trailing whitespace |
| Text.StripUnpadded | commons/engine/engine_k15.py:98 | stripping text without surrounding whitespace changes nothing |
| Text.JoinContains | commons/ch8/agents.py:90 | every joined part appears in the joined text |

## Left out

- The language model (`call_llm_robust`), embeddings and the Pinecone query: oracles `Services.generate` and `Services.search`; their retries and backoff are not modelled. Prompt wording is kept only as far as which inputs the prompt carries.
- Token counting (`count_tokens`, tiktoken): the oracle `Env.tokens`.
- The Pinecone connection (`pc.Index`): the input `Env.connectError`.
- `json.loads` of the planner's reply: the reply is the already-parsed value `Env.planReply`, or the error it raised.
- Wall-clock time, `start_time` and `duration`, and all `logging`: not modelled (floats and I/O).
- Match scores and their `:.2f` formatting: a score is only required to be present.
- The agent a handler actually runs: `Env.handle` is an oracle from the agent and its envelope to a reply; the handler closure is the `Binding` of dependency names.
- `copy.deepcopy`: values are immutable here, so the caller's input cannot be changed.
- Python `str()`/`repr()`: strings inside containers are quoted with single quotes but not escaped, so a string holding a quote or a backslash renders differently from Python.
- Dicts are ordered lists of fields; a parsed JSON object with a repeated key is not distinguished (the first occurrence is read).
- Exception messages of Python's own errors (`KeyError`, `AttributeError`, `TypeError`) follow CPython's wording only approximately; the messages the code raises itself are exact.
- `re.IGNORECASE` folds ASCII letters only, and `\d` matches ASCII digits only.
- HiFiResearch.ReadChunk: a `source` that is not a string ends the agent with an error, whereas Python adds any hashable value to the set and fails only when `sorted` meets mixed types.
- Numbers are integers only (`Num(int)`): floats in the plan or in agent outputs are not modelled, so a float step number (`STEP_1.0_OUTPUT` as the key, `0.0` failing ch9's falsiness check) and the `str()` of an embedded float are not covered.
- Resolver.PatternEmbedded and Resolver.PatternEmbeddedMany: embedded placeholders are proved to be replaced one by one only when the text around and between them has no `$`, stored values have no `$` in their `str()`, and the text between two placeholders is non-empty and does not begin with `S`; text holding stray `$` is not covered. Outside that, `value.replace` works on the whole current text: a stored value that contains another found placeholder is replaced again when that key's turn comes, and a reference formed by one placeholder's closing `$$`, the text between and the next one's opening `$$` is replaced as well (`Resolver.PatternOverlapExample`).
- Trace immutability after `finalize` is not enforced, because the code does not enforce it.

## Findings

| source | as written | input that shows it | evidently intended | confidence | as-written member | corrected member |
|---|---|---|---|---|---|---|
| commons/ch6/agents.py:111-113 | the ch6 Writer validates the blueprint (lines 88, 101) but neither prompt contains it | two messages with different non-empty blueprints and the same facts give the same model prompts and output | the blueprint is placed in the prompt, as in commons/agents.py:102-104 and commons/ch8/agents.py:152 | medium; not executed | Writers.WriterCh6AsWritten, Writers.Ch6BlueprintIgnored | Writers.WriterStructured, Writers.StructuredCarriesBlueprint |
