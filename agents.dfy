/**
 * What the agents share: the search and generation services they call, and
 * the three agents whose code is the same in every agents file that has
 * them: the Librarian (commons/agents.py, commons/ch6/agents.py,
 * commons/ch8/agents.py and commons/engine/agents_k15.py), the Summarizer
 * (the last three) and the plain Researcher (commons/agents.py and
 * commons/ch6/agents.py).
 *
 * The vector search and the language model are oracles. A search is
 * identified by its query value, its namespace and `top_k`; a generation
 * request by the values that reach the prompt, whose wording is not modelled.
 */
module Agents {
  import opened Wrappers
  import opened Json
  import opened Mcp
  import Registry

  /** `query_pinecone(query_text, namespace, top_k, ...)` */
  datatype Query = Query(text: Value, namespace: Registry.Dependency, topK: nat)

  /** What a call of `call_llm_robust` is given to work on. */
  datatype Prompt =
    | Research(topic: Value, sources: seq<string>)
    | Compose(blueprint: Option<Value>, material: Value)
    | Condense(objective: Value, text: Value)

  datatype Services = Services(search: Query -> Result<seq<Value>>, generate: Prompt -> Result<string>)

  /** A dictionary with the one key `key`. */
  function Single(key: string, v: Value): Value {
    Obj([Field(key, v)])
  }

  /** `match["metadata"][key]` for a search match. */
  function MetadataField(m: Value, key: string): (r: Result<Value>)
    ensures r.Ok? ==> Index(m, "metadata").Ok? && Index(Index(m, "metadata").value, key) == r
  {
    match Index(m, "metadata")
    case Err(e) => Err(e)
    case Ok(md) => Index(md, key)
  }

  // ---------------------------------------------------------------------------
  // The Librarian.
  // ---------------------------------------------------------------------------

  const LibrarianMissing: string := "Librarian requires 'intent_query' in the input content."

  /** `json.dumps({"instruction": "Generate the content neutrally."})` */
  const DefaultBlueprint: string := "{\"instruction\": \"Generate the content neutrally.\"}"

  /**
   * The blueprint of the best match. The log line before it reads the
   * match's `id` and `score`, so a match without them raises.
   */
  function BlueprintOf(m: Value): (r: Result<Value>)
    ensures r.Ok? ==> Index(m, "id").Ok? && Index(m, "score").Ok? && MetadataField(m, "blueprint_json") == r
  {
    match Index(m, "id")
    case Err(e) => Err(e)
    case Ok(_) =>
      match Index(m, "score")
      case Err(e) => Err(e)
      case Ok(_) => MetadataField(m, "blueprint_json")
  }

  /** `agent_context_librarian(mcp_message, ...)` */
  function Librarian(services: Services, msg: Message): (r: Result<Message>)
    ensures r.Ok? ==> msg.content.Obj? && Truthy(Get(msg.content.fields, "intent_query"))
    ensures r.Ok? ==>
      r.value.sender == "Librarian" && r.value.content.Obj? && Keys(r.value.content.fields) == ["blueprint_json"]
    ensures msg.content.Obj? && !Truthy(Get(msg.content.fields, "intent_query")) ==> r == Err(LibrarianMissing)
  {
    match DictGet(msg.content, "intent_query")
    case Err(e) => Err(e)
    case Ok(intent) =>
      if !Truthy(intent) then Err(LibrarianMissing)
      else
        match services.search(Query(intent, Registry.NamespaceContext, 1))
        case Err(e) => Err(e)
        case Ok(results) =>
          if results == [] then
            Ok(CreateMessage("Librarian", Single("blueprint_json", Str(DefaultBlueprint)), Null))
          else
            match BlueprintOf(results[0])
            case Err(e) => Err(e)
            case Ok(blueprint) => Ok(CreateMessage("Librarian", Single("blueprint_json", blueprint), Null))
  }

  /** With no match the Librarian falls back to the neutral blueprint. */
  lemma LibrarianDefault(services: Services, msg: Message)
    requires msg.content.Obj? && Truthy(Get(msg.content.fields, "intent_query"))
    requires services.search(Query(Get(msg.content.fields, "intent_query"), Registry.NamespaceContext, 1)) == Ok([])
    ensures Librarian(services, msg).Ok?
    ensures Librarian(services, msg).value.content == Single("blueprint_json", Str(DefaultBlueprint))
  {
  }

  /** With a match, the Librarian passes on that match's stored blueprint, whatever it is. */
  lemma LibrarianBestMatch(services: Services, msg: Message)
    requires msg.content.Obj? && Truthy(Get(msg.content.fields, "intent_query"))
    requires var results := services.search(Query(Get(msg.content.fields, "intent_query"), Registry.NamespaceContext, 1));
      results.Ok? && results.value != [] && BlueprintOf(results.value[0]).Ok?
    ensures Librarian(services, msg).Ok?
    ensures var results := services.search(Query(Get(msg.content.fields, "intent_query"), Registry.NamespaceContext, 1));
      Librarian(services, msg).value.content
        == Single("blueprint_json", MetadataField(results.value[0], "blueprint_json").value)
  {
  }

  /**
   * The Librarian asks for the single best match in the context namespace and
   * looks at nothing else the search could return.
   */
  lemma LibrarianAsksTopOne(s1: Services, s2: Services, msg: Message)
    requires msg.content.Obj?
    requires var q := Query(Get(msg.content.fields, "intent_query"), Registry.NamespaceContext, 1);
      s1.search(q) == s2.search(q)
    ensures Librarian(s1, msg) == Librarian(s2, msg)
  {
  }

  // ---------------------------------------------------------------------------
  // The Summarizer.
  // ---------------------------------------------------------------------------

  const SummarizerMissing: string :=
    "Summarizer requires 'text_to_summarize' and 'summary_objective' in the input content."

  /** `agent_summarizer(mcp_message, ...)` */
  function Summarizer(services: Services, msg: Message): (r: Result<Message>)
    ensures r.Ok? <==>
      && msg.content.Obj?
      && Truthy(Get(msg.content.fields, "text_to_summarize"))
      && Truthy(Get(msg.content.fields, "summary_objective"))
      && services.generate(Condense(Get(msg.content.fields, "summary_objective"),
                                    Get(msg.content.fields, "text_to_summarize"))).Ok?
    ensures r.Ok? ==> r.value == CreateMessage("Summarizer", Single("summary", Str(
      services.generate(Condense(Get(msg.content.fields, "summary_objective"),
                                 Get(msg.content.fields, "text_to_summarize"))).value)), Null)
    ensures msg.content.Obj? && !(Truthy(Get(msg.content.fields, "text_to_summarize"))
                                  && Truthy(Get(msg.content.fields, "summary_objective")))
      ==> r == Err(SummarizerMissing)
  {
    match DictGet(msg.content, "text_to_summarize")
    case Err(e) => Err(e)
    case Ok(text) =>
      var objective := Get(msg.content.fields, "summary_objective");
      if !Truthy(text) || !Truthy(objective) then Err(SummarizerMissing)
      else
        match services.generate(Condense(objective, text))
        case Err(e) => Err(e)
        case Ok(summary) => Ok(CreateMessage("Summarizer", Single("summary", Str(summary)), Null))
  }

  // ---------------------------------------------------------------------------
  // The plain Researcher.
  // ---------------------------------------------------------------------------

  const ResearcherMissing: string := "Researcher requires 'topic_query' in the input content."
  const NoData: string := "No data found on the topic."

  /** `"\n\n---\n\n".join(texts)` accepts only strings. */
  function Strings(vs: seq<Value>, offset: nat): (r: Result<seq<string>>)
    ensures r.Ok? <==> forall k :: 0 <= k < |vs| ==> vs[k].Str?
    ensures r.Ok? ==> |r.value| == |vs| && forall k :: 0 <= k < |vs| ==> vs[k] == Str(r.value[k])
  {
    if vs == [] then Ok([])
    else if !vs[0].Str? then
      Err("sequence item " + NatToString(offset) + ": expected str instance, " + TypeName(vs[0]) + " found")
    else
      match Strings(vs[1..], offset + 1)
      case Err(e) => Err(e)
      case Ok(rest) => Ok([vs[0].s] + rest)
  }

  /** `[match['metadata']['text'] for match in results]` */
  function SourceTexts(results: seq<Value>): (r: Result<seq<Value>>)
    ensures r.Ok? <==> forall k :: 0 <= k < |results| ==> MetadataField(results[k], "text").Ok?
    ensures r.Ok? ==>
      |r.value| == |results| && forall k :: 0 <= k < |results| ==> MetadataField(results[k], "text") == Ok(r.value[k])
  {
    if results == [] then Ok([])
    else
      match MetadataField(results[0], "text")
      case Err(e) => Err(e)
      case Ok(t) =>
        match SourceTexts(results[1..])
        case Err(e) => Err(e)
        case Ok(rest) => Ok([t] + rest)
  }

  /** `agent_researcher` of commons/agents.py and commons/ch6/agents.py. */
  function Researcher(services: Services, msg: Message): (r: Result<Message>)
    ensures r.Ok? ==> msg.content.Obj? && Truthy(Get(msg.content.fields, "topic_query"))
    ensures r.Ok? ==>
      r.value.sender == "Researcher" && r.value.content.Obj? && Keys(r.value.content.fields) == ["facts"]
    ensures msg.content.Obj? && !Truthy(Get(msg.content.fields, "topic_query")) ==> r == Err(ResearcherMissing)
  {
    match DictGet(msg.content, "topic_query")
    case Err(e) => Err(e)
    case Ok(topic) =>
      if !Truthy(topic) then Err(ResearcherMissing)
      else
        match services.search(Query(topic, Registry.NamespaceKnowledge, 3))
        case Err(e) => Err(e)
        case Ok(results) =>
          if results == [] then Ok(CreateMessage("Researcher", Single("facts", Str(NoData)), Null))
          else
            match SourceTexts(results)
            case Err(e) => Err(e)
            case Ok(texts) =>
              match Strings(texts, 0)
              case Err(e) => Err(e)
              case Ok(sources) =>
                match services.generate(Research(topic, sources))
                case Err(e) => Err(e)
                case Ok(findings) => Ok(CreateMessage("Researcher", Single("facts", Str(findings)), Null))
  }

  /** With no match the plain Researcher reports that nothing was found, without generating. */
  lemma ResearcherNoData(services: Services, msg: Message)
    requires msg.content.Obj? && Truthy(Get(msg.content.fields, "topic_query"))
    requires services.search(Query(Get(msg.content.fields, "topic_query"), Registry.NamespaceKnowledge, 3)) == Ok([])
    ensures Researcher(services, msg) == Ok(CreateMessage("Researcher", Single("facts", Str(NoData)), Null))
  {
  }

  /**
   * Otherwise its facts are what the model generated from the topic and the
   * text of every match, in order.
   */
  lemma ResearcherSynthesises(services: Services, msg: Message)
    requires Researcher(services, msg).Ok?
    requires Researcher(services, msg).value.content != Single("facts", Str(NoData))
    ensures var topic := Get(msg.content.fields, "topic_query");
      var results := services.search(Query(topic, Registry.NamespaceKnowledge, 3));
      && results.Ok? && results.value != []
      && exists sources: seq<string> ::
           && |sources| == |results.value|
           && (forall k :: 0 <= k < |sources| ==> MetadataField(results.value[k], "text") == Ok(Str(sources[k])))
           && services.generate(Research(topic, sources)).Ok?
           && Researcher(services, msg).value.content == Single("facts", Str(services.generate(Research(topic, sources)).value))
  {
    var topic := Get(msg.content.fields, "topic_query");
    var results := services.search(Query(topic, Registry.NamespaceKnowledge, 3)).value;
    var texts := SourceTexts(results).value;
    var sources := Strings(texts, 0).value;
    assert forall k :: 0 <= k < |sources| ==> MetadataField(results[k], "text") == Ok(Str(sources[k]));
  }
}
