/**
 * The agent registries: commons/engine/registry.py knows four agents and
 * commons/registry.py three. `get_handler` looks a name up in the registry
 * dictionary, fails on an unknown name, and otherwise returns the agent
 * function with the dependencies its branch binds; the closures are modelled
 * by the set of dependency names they bind. The capability description the
 * planner reads is rendered from one record per agent.
 */
module Registry {
  import opened Wrappers
  import opened Json
  import opened Text

  datatype Agent = Librarian | Researcher | Writer | Summarizer

  /** The keyword arguments `get_handler` can bind. */
  datatype Dependency =
    | Client | Index | GenerationModel | EmbeddingModel | NamespaceContext | NamespaceKnowledge

  /** commons/engine/registry.py (`FourAgents`) or commons/registry.py (`ThreeAgents`). */
  datatype Edition = FourAgents | ThreeAgents

  /** A closure binding these dependencies, or the bare agent function of the final `else`. */
  datatype Binding = Bound(deps: set<Dependency>) | Unbound

  datatype Handler = Handler(agent: Agent, binding: Binding)

  function Name(a: Agent): string {
    match a
    case Librarian => "Librarian"
    case Researcher => "Researcher"
    case Writer => "Writer"
    case Summarizer => "Summarizer"
  }

  /** `self.registry`, in insertion order. */
  function Entries(e: Edition): seq<Agent> {
    match e
    case FourAgents => [Librarian, Researcher, Writer, Summarizer]
    case ThreeAgents => [Librarian, Researcher, Writer]
  }

  /** `self.registry.get(name)` for a string name. */
  function Find(agents: seq<Agent>, name: string): (r: Option<Agent>)
    ensures r.Some? ==> r.value in agents && Name(r.value) == name
    ensures r.None? ==> forall a :: a in agents ==> Name(a) != name
  {
    if agents == [] then None
    else if Name(agents[0]) == name then Some(agents[0])
    else Find(agents[1..], name)
  }

  /** The if/elif chain of `get_handler` on the agent name. */
  function BindingFor(e: Edition, name: string): Binding {
    if name == "Librarian" then Bound({Client, Index, EmbeddingModel, NamespaceContext})
    else if name == "Researcher" then Bound({Client, Index, GenerationModel, EmbeddingModel, NamespaceKnowledge})
    else if name == "Writer" then Bound({Client, GenerationModel})
    else if e == FourAgents && name == "Summarizer" then Bound({Client, GenerationModel})
    else Unbound
  }

  function NotFoundError(name: Value): string {
    "Agent '" + StrForm(name) + "' not found in registry."
  }

  /**
   * `get_handler(agent_name, ...)`. The name comes from the plan and may be
   * any JSON value: a list or dictionary cannot be a dictionary key, and any
   * other value that is not a registered name is reported as not found.
   */
  function GetHandler(e: Edition, name: Value): (r: Result<Handler>)
    ensures r.Ok? <==> name.Str? && exists a :: a in Entries(e) && Name(a) == name.s
    ensures r.Ok? ==> Name(r.value.agent) == name.s && r.value.agent in Entries(e)
    ensures r.Err? && !name.Arr? && !name.Obj? ==> r.error == NotFoundError(name)
  {
    match name
    case Arr(_) => Err("unhashable type: 'list'")
    case Obj(_) => Err("unhashable type: 'dict'")
    case Str(s) =>
      (match Find(Entries(e), s)
       case None => Err(NotFoundError(name))
       case Some(a) => Ok(Handler(a, BindingFor(e, s))))
    case _ => Err(NotFoundError(name))
  }

  /** The dependencies each agent needs, listed per agent. */
  function Needs(a: Agent): set<Dependency> {
    match a
    case Librarian => {Client, Index, EmbeddingModel, NamespaceContext}
    case Researcher => {Client, Index, GenerationModel, EmbeddingModel, NamespaceKnowledge}
    case Writer => {Client, GenerationModel}
    case Summarizer => {Client, GenerationModel}
  }

  /**
   * Every handler the registry hands out is a closure binding exactly what its
   * agent needs: the final `else`, which returns the unbound function, is never taken.
   */
  lemma HandlerBindsNeeds(e: Edition, name: Value)
    requires GetHandler(e, name).Ok?
    ensures GetHandler(e, name).value.binding == Bound(Needs(GetHandler(e, name).value.agent))
  {
  }

  /** The registries know exactly these names. */
  lemma RegisteredNames(name: string)
    ensures GetHandler(FourAgents, Str(name)).Ok?
        <==> name in {"Librarian", "Researcher", "Writer", "Summarizer"}
    ensures GetHandler(ThreeAgents, Str(name)).Ok?
        <==> name in {"Librarian", "Researcher", "Writer"}
  {
    if name == "Summarizer" {
      assert Name(Summarizer) == name;
    }
    if name in {"Librarian", "Researcher", "Writer"} {
      var a := if name == "Librarian" then Librarian else if name == "Researcher" then Researcher else Writer;
      assert Name(a) == name;
    }
  }

  /** The three-agent registry hands out the same handlers as the four-agent one, for its own names. */
  lemma EditionsAgree(name: Value)
    requires GetHandler(ThreeAgents, name).Ok?
    ensures GetHandler(FourAgents, name) == GetHandler(ThreeAgents, name)
  {
  }

  // ---------------------------------------------------------------------------
  // The capability description.
  // ---------------------------------------------------------------------------

  datatype InputSpec = InputSpec(key: string, kind: string, about: string)
  datatype Capability = Capability(agent: Agent, role: string, inputs: seq<InputSpec>, output: string)

  const LibrarianCapability := Capability(
    Librarian, "Retrieves Semantic Blueprints (style/structure instructions).",
    [InputSpec("intent_query", "String", "A descriptive phrase of the desired style.")],
    "The blueprint structure (JSON string).")

  const ResearcherCapability := Capability(
    Researcher, "Retrieves and synthesizes factual information on a topic.",
    [InputSpec("topic_query", "String", "The subject matter to research.")],
    "Synthesized facts (String).")

  const SummarizerCapability := Capability(
    Summarizer,
    "Reduces large text to a concise summary based on a specific objective. Ideal for managing token counts before a generation step.",
    [ InputSpec("text_to_summarize", "String/Reference", "The long text to be summarized."),
      InputSpec("summary_objective", "String",
                "A clear goal for the summary (e.g., \"Extract key technical specifications\").") ],
    "A dictionary containing the summary: {\"summary\": \"...\"}.")

  function WriterCapability(factsFrom: string): Capability {
    Capability(
      Writer, "Generates or rewrites content by applying a Blueprint to source material.",
      [ InputSpec("blueprint", "String/Reference", "The style instructions (usually from Librarian)."),
        InputSpec("facts", "String/Reference", "Factual information (usually from " + factsFrom + ")."),
        InputSpec("previous_content", "String/Reference", "Existing text for rewriting.") ],
      "The final generated text (String).")
  }

  /** The agents the description lists, in its order. */
  function Listed(e: Edition): seq<Agent> {
    match e
    case FourAgents => [Librarian, Researcher, Summarizer, Writer]
    case ThreeAgents => [Librarian, Researcher, Writer]
  }

  /** The entry the description of `e` gives agent `a`. */
  function CapabilityOf(e: Edition, a: Agent): (c: Capability)
    ensures c.agent == a
  {
    match a
    case Librarian => LibrarianCapability
    case Researcher => ResearcherCapability
    case Summarizer => SummarizerCapability
    case Writer => WriterCapability(if e == FourAgents then "Researcher or Summarizer" else "Researcher")
  }

  function Capabilities(e: Edition): (cs: seq<Capability>)
    ensures |cs| == |Listed(e)| && forall k :: 0 <= k < |cs| ==> cs[k].agent == Listed(e)[k]
  {
    seq(|Listed(e)|, k requires 0 <= k < |Listed(e)| => CapabilityOf(e, Listed(e)[k]))
  }

  const Preamble: string :=
    "\nAvailable Agents and their required inputs.\n"
    + "CRITICAL: You MUST use the exact input key names provided for each agent.\n\n"

  function InputLine(i: InputSpec): string {
    "     - \"" + i.key + "\": (" + i.kind + ") " + i.about + "\n"
  }

  function InputLines(ins: seq<InputSpec>): (r: seq<string>)
    ensures |r| == |ins| && forall k :: 0 <= k < |ins| ==> r[k] == InputLine(ins[k])
  {
    if ins == [] then [] else [InputLine(ins[0])] + InputLines(ins[1..])
  }

  function Title(a: Agent): string {
    "AGENT: " + Name(a)
  }

  /** One numbered entry of the description. */
  function Section(n: nat, c: Capability): string {
    NatToString(n) + ". " + Title(c.agent)
    + "\n   ROLE: " + c.role
    + "\n   INPUTS:\n" + Join(InputLines(c.inputs), "")
    + "   OUTPUT: " + c.output + "\n"
  }

  function Sections(cs: seq<Capability>, n: nat): (r: seq<string>)
    ensures |r| == |cs| && forall k :: 0 <= k < |cs| ==> r[k] == Section(n + k, cs[k])
  {
    if cs == [] then [] else [Section(n, cs[0])] + Sections(cs[1..], n + 1)
  }

  /** `get_capabilities_description()`: the entries numbered from 1 and separated by blank lines. */
  function CapabilitiesDescription(e: Edition): string {
    Describe(Capabilities(e))
  }

  function Describe(cs: seq<Capability>): string {
    Preamble + Join(Sections(cs, 1), "\n")
  }

  /** The description lists exactly the agents the registry knows. */
  lemma DescriptionMatchesRegistry(e: Edition, a: Agent)
    ensures (exists k :: 0 <= k < |Capabilities(e)| && Capabilities(e)[k].agent == a) <==> a in Entries(e)
  {
    EntriesListed(Capabilities(e), Listed(e), a);
    assert a in Listed(e) <==> a in Entries(e) by {
      match e
      case FourAgents =>
      case ThreeAgents =>
    }
  }

  lemma EntriesListed(cs: seq<Capability>, agents: seq<Agent>, a: Agent)
    requires |cs| == |agents| && forall k :: 0 <= k < |cs| ==> cs[k].agent == agents[k]
    ensures (exists k :: 0 <= k < |cs| && cs[k].agent == a) <==> a in agents
  {
    if a in agents {
      var k :| 0 <= k < |agents| && agents[k] == a;
      assert cs[k].agent == a;
    }
  }

  lemma SectionNamesAgent(n: nat, c: Capability)
    ensures Contains(Section(n, c), Title(c.agent))
  {
    var x2 := NatToString(n) + ". " + Title(c.agent);
    assert Section(n, c)[..|x2|] == x2;
    assert OccursAt(Section(n, c), x2, 0);
    ContainsRight(NatToString(n) + ". ", Title(c.agent));
    ContainsTrans(Section(n, c), x2, Title(c.agent));
  }

  lemma InputLineQuotesKey(i: InputSpec)
    ensures Contains(InputLine(i), "\"" + i.key + "\"")
  {
    assert InputLine(i) == "     - " + ("\"" + i.key + "\"") + (": (" + i.kind + ") " + i.about + "\n");
    ContainsMiddle("     - ", "\"" + i.key + "\"", ": (" + i.kind + ") " + i.about + "\n");
  }

  lemma SectionQuotesInput(n: nat, c: Capability, k: int)
    requires 0 <= k < |c.inputs|
    ensures Contains(Section(n, c), "\"" + c.inputs[k].key + "\"")
  {
    var i := c.inputs[k];
    var lines := Join(InputLines(c.inputs), "");
    var head := NatToString(n) + ". " + Title(c.agent) + "\n   ROLE: " + c.role + "\n   INPUTS:\n";
    var tail := "   OUTPUT: " + c.output + "\n";
    JoinContains(InputLines(c.inputs), "", k);
    InputLineQuotesKey(i);
    ContainsTrans(lines, InputLine(i), "\"" + i.key + "\"");
    assert Section(n, c) == head + lines + tail;
    ContainsMiddle(head, lines, tail);
    ContainsTrans(Section(n, c), lines, "\"" + i.key + "\"");
  }

  /** Every listed agent appears in the description with the quoted names of all its input keys. */
  lemma DescriptionMentions(e: Edition, k: int, j: int)
    requires 0 <= k < |Capabilities(e)| && 0 <= j < |Capabilities(e)[k].inputs|
    ensures Contains(CapabilitiesDescription(e), Title(Capabilities(e)[k].agent))
    ensures Contains(CapabilitiesDescription(e), "\"" + Capabilities(e)[k].inputs[j].key + "\"")
  {
    DescribeMentions(Capabilities(e), k, j);
  }

  lemma DescribeMentions(cs: seq<Capability>, k: int, j: int)
    requires 0 <= k < |cs| && 0 <= j < |cs[k].inputs|
    ensures Contains(Describe(cs), Title(cs[k].agent))
    ensures Contains(Describe(cs), "\"" + cs[k].inputs[j].key + "\"")
  {
    var c := cs[k];
    var body := Join(Sections(cs, 1), "\n");
    SectionNamesAgent(1 + k, c);
    SectionQuotesInput(1 + k, c, j);
    JoinContains(Sections(cs, 1), "\n", k);
    ContainsMiddle(Preamble, body, []);
    assert Preamble + body + [] == Describe(cs);
    ContainsTrans(body, Section(1 + k, c), Title(c.agent));
    ContainsTrans(Describe(cs), body, Title(c.agent));
    ContainsTrans(body, Section(1 + k, c), "\"" + c.inputs[j].key + "\"");
    ContainsTrans(Describe(cs), body, "\"" + c.inputs[j].key + "\"");
  }
}
