/**
 * The four versions of `agent_writer`, which differ in how they find the
 * blueprint and the source material in their input:
 *
 *  - commons/agents.py: plain `blueprint`, `facts`, `previous_content`;
 *  - commons/ch6/agents.py and commons/ch8/agents.py: structured inputs,
 *    where the blueprint may be a Librarian output and the facts a
 *    Researcher or Summarizer output;
 *  - commons/engine/agents_k15.py: `or`-chains over renamed keys, a
 *    positional fallback and `extract_text`.
 *
 * The prompt's wording is not modelled: a generation request carries the
 * blueprint (when the prompt shows it) and the source material.
 */
module Writers {
  import opened Wrappers
  import opened Json
  import opened Mcp
  import opened Agents

  // ---------------------------------------------------------------------------
  // commons/agents.py
  // ---------------------------------------------------------------------------

  const BlueprintMissing: string := "Writer requires 'blueprint' in the input content."
  const MaterialMissing: string := "Writer requires either 'facts' or 'previous_content'."

  /** `agent_writer` of commons/agents.py. */
  function WriterBasic(services: Services, msg: Message): (r: Result<Message>)
    ensures msg.content.Obj? && !Truthy(Get(msg.content.fields, "blueprint")) ==> r == Err(BlueprintMissing)
    ensures msg.content.Obj? && Truthy(Get(msg.content.fields, "blueprint"))
            && !Truthy(Get(msg.content.fields, "facts")) && !Truthy(Get(msg.content.fields, "previous_content"))
      ==> r == Err(MaterialMissing)
    ensures r.Ok? ==> msg.content.Obj?
    ensures r.Ok? && msg.content.Obj? ==>
      var fields := msg.content.fields;
      var material := if Truthy(Get(fields, "facts")) then Get(fields, "facts") else Get(fields, "previous_content");
      && Truthy(material)
      && services.generate(Compose(Some(Get(fields, "blueprint")), material)).Ok?
      && r.value == CreateMessage("Writer", Single("final_output",
           Str(services.generate(Compose(Some(Get(fields, "blueprint")), material)).value)), Null)
  {
    match DictGet(msg.content, "blueprint")
    case Err(e) => Err(e)
    case Ok(blueprint) =>
      var facts := Get(msg.content.fields, "facts");
      var previous := Get(msg.content.fields, "previous_content");
      if !Truthy(blueprint) then Err(BlueprintMissing)
      else if !Truthy(facts) && !Truthy(previous) then Err(MaterialMissing)
      else
        var material := if Truthy(facts) then facts else previous;
        match services.generate(Compose(Some(blueprint), material))
        case Err(e) => Err(e)
        case Ok(output) => Ok(CreateMessage("Writer", Single("final_output", Str(output)), Null))
  }

  /** Given both, the plain Writer writes from the facts and never looks at the previous content. */
  lemma BasicPrefersFacts(services: Services, msg: Message, previous: Value)
    requires msg.content.Obj? && Truthy(Get(msg.content.fields, "facts"))
    ensures WriterBasic(services, msg) == WriterBasic(services, Message(msg.protocolVersion, msg.sender,
      Obj(msg.content.fields + [Field("previous_content", previous)]), msg.metadata))
  {
    var fields := msg.content.fields;
    var more := fields + [Field("previous_content", previous)];
    LookupAppend(fields, Field("previous_content", previous), "blueprint");
    LookupAppend(fields, Field("previous_content", previous), "facts");
  }

  /** Looking up a key other than the appended one, or one already present, is unaffected by an appended field. */
  lemma {:induction false} LookupAppend(fields: seq<Field>, f: Field, key: string)
    requires key != f.key || HasKey(fields, key)
    ensures Lookup(fields + [f], key) == Lookup(fields, key)
    decreases |fields|
  {
    if fields != [] {
      assert (fields + [f])[1..] == fields[1..] + [f];
      if fields[0].key != key {
        LookupAppend(fields[1..], f, key);
      }
    }
  }

  // ---------------------------------------------------------------------------
  // commons/ch6/agents.py and commons/ch8/agents.py
  // ---------------------------------------------------------------------------

  /** The chapter whose Writer is meant: ch8 also reads the hi-fi Researcher's cited answer. */
  datatype Chapter = Ch6 | Ch8

  const StructuredMissing: string := "Writer requires a blueprint and either 'facts' or 'previous_content'."

  /** The blueprint string: the `blueprint_json` of a Librarian output, any other value as it is. */
  function BlueprintString(v: Value): (r: Value)
    ensures v.Obj? ==> r == Get(v.fields, "blueprint_json")
    ensures !v.Obj? ==> r == v
  {
    if v.Obj? then Get(v.fields, "blueprint_json") else v
  }

  /**
   * The facts: from an agent's output, its first non-None `facts`, `summary`
   * or (ch8 only) `answer_with_sources`; a string as it is; anything else None.
   */
  function FactsOf(v: Value, ch: Chapter): (r: Value)
    ensures v.Str? ==> r == v
    ensures !v.Obj? && !v.Str? ==> r == Null
    ensures v.Obj? && Get(v.fields, "facts") != Null ==> r == Get(v.fields, "facts")
    ensures v.Obj? && Get(v.fields, "facts") == Null ==>
      r == if Get(v.fields, "summary") != Null || ch == Ch6 then Get(v.fields, "summary")
           else Get(v.fields, "answer_with_sources")
  {
    if v.Obj? then
      var facts := Get(v.fields, "facts");
      if facts != Null then facts
      else
        var summary := Get(v.fields, "summary");
        if summary != Null || ch == Ch6 then summary
        else Get(v.fields, "answer_with_sources")
    else if v.Str? then v
    else Null
  }

  /** What the structured Writer hands to the model. */
  datatype Brief = Brief(blueprint: Value, material: Value)

  /** Reading and validating the structured Writer's input. */
  function Unpack(msg: Message, ch: Chapter): (r: Result<Brief>)
    ensures msg.content.Obj? ==>
      var fields := msg.content.fields;
      var facts := FactsOf(Get(fields, "facts"), ch);
      var previous := Get(fields, "previous_content");
      && (r.Ok? <==> Truthy(BlueprintString(Get(fields, "blueprint"))) && (Truthy(facts) || Truthy(previous)))
      && (r.Err? ==> r.error == StructuredMissing)
      && (r.Ok? ==> r.value.blueprint == BlueprintString(Get(fields, "blueprint")))
      && (r.Ok? && Truthy(facts) ==> r.value.material == facts)
      && (r.Ok? && !Truthy(facts) ==> r.value.material == previous)
    ensures r.Ok? ==> msg.content.Obj? && Truthy(r.value.blueprint) && Truthy(r.value.material)
  {
    match DictGet(msg.content, "blueprint")
    case Err(e) => Err(e)
    case Ok(blueprintData) =>
      var blueprint := BlueprintString(blueprintData);
      var facts := FactsOf(Get(msg.content.fields, "facts"), ch);
      var previous := Get(msg.content.fields, "previous_content");
      if !Truthy(blueprint) || (!Truthy(facts) && !Truthy(previous)) then Err(StructuredMissing)
      else Ok(Brief(blueprint, if Truthy(facts) then facts else previous))
  }

  /**
   * `agent_writer` of commons/ch6/agents.py and commons/ch8/agents.py: the
   * content is the bare generated string, written from the blueprint and
   * the material.
   */
  function WriterStructured(services: Services, msg: Message, ch: Chapter): (r: Result<Message>)
    ensures Unpack(msg, ch).Err? ==> r == Err(Unpack(msg, ch).error)
    ensures Unpack(msg, ch).Ok? ==>
      var b := Unpack(msg, ch).value;
      && (r.Ok? <==> services.generate(Compose(Some(b.blueprint), b.material)).Ok?)
      && (r.Ok? ==> r.value == CreateMessage("Writer", Str(services.generate(Compose(Some(b.blueprint), b.material)).value), Null))
  {
    match Unpack(msg, ch)
    case Err(e) => Err(e)
    case Ok(b) =>
      match services.generate(Compose(Some(b.blueprint), b.material))
      case Err(e) => Err(e)
      case Ok(output) => Ok(CreateMessage("Writer", Str(output), Null))
  }

  /**
   * The ch6 Writer as written: its prompts show only the source material,
   * so the blueprint it validated never reaches the model.
   */
  function WriterCh6AsWritten(services: Services, msg: Message): (r: Result<Message>)
    ensures Unpack(msg, Ch6).Err? ==> r == Err(Unpack(msg, Ch6).error)
    ensures Unpack(msg, Ch6).Ok? ==>
      var b := Unpack(msg, Ch6).value;
      && (r.Ok? <==> services.generate(Compose(None, b.material)).Ok?)
      && (r.Ok? ==> r.value == CreateMessage("Writer", Str(services.generate(Compose(None, b.material)).value), Null))
  {
    match Unpack(msg, Ch6)
    case Err(e) => Err(e)
    case Ok(b) =>
      match services.generate(Compose(None, b.material))
      case Err(e) => Err(e)
      case Ok(output) => Ok(CreateMessage("Writer", Str(output), Null))
  }

  /** A Writer input with a Librarian blueprint `bp` and the plain facts "facts". */
  function BriefMessage(bp: string): Message {
    CreateMessage("Engine", Obj([Field("blueprint", Single("blueprint_json", Str(bp))), Field("facts", Str("facts"))]), Null)
  }

  /**
   * As written, any two blueprints give the same ch6 output for the same
   * facts, although the Writer reads and validates a different blueprint
   * for each.
   */
  lemma Ch6BlueprintIgnored(services: Services, bp1: string, bp2: string)
    requires bp1 != "" && bp2 != "" && bp1 != bp2
    ensures WriterCh6AsWritten(services, BriefMessage(bp1)) == WriterCh6AsWritten(services, BriefMessage(bp2))
    ensures Unpack(BriefMessage(bp1), Ch6) == Ok(Brief(Str(bp1), Str("facts")))
    ensures Unpack(BriefMessage(bp2), Ch6) == Ok(Brief(Str(bp2), Str("facts")))
  {
    BriefUnpacks(bp1);
    BriefUnpacks(bp2);
  }

  lemma BriefUnpacks(bp: string)
    requires bp != ""
    ensures Unpack(BriefMessage(bp), Ch6) == Ok(Brief(Str(bp), Str("facts")))
  {
    var librarian := Single("blueprint_json", Str(bp));
    GetOfPair("blueprint", librarian, "facts", Str("facts"), "blueprint");
    GetOfPair("blueprint", librarian, "facts", Str("facts"), "facts");
    GetOfPair("blueprint", librarian, "facts", Str("facts"), "previous_content");
  }

  /** The corrected Writer asks the model for a generation that carries the blueprint it validated. */
  lemma StructuredCarriesBlueprint(services: Services, msg: Message, ch: Chapter)
    requires WriterStructured(services, msg, ch).Ok?
    ensures msg.content.Obj?
    ensures var blueprint := BlueprintString(Get(msg.content.fields, "blueprint"));
      && Truthy(blueprint)
      && exists material :: Truthy(material)
           && services.generate(Compose(Some(blueprint), material)).Ok?
           && WriterStructured(services, msg, ch).value.content == Str(services.generate(Compose(Some(blueprint), material)).value)
  {
    var b := Unpack(msg, ch).value;
    assert Truthy(b.material);
  }

  /** Reading a two-entry dictionary. */
  lemma GetOfPair(k1: string, v1: Value, k2: string, v2: Value, key: string)
    requires k1 != k2
    ensures Get([Field(k1, v1), Field(k2, v2)], key) == if key == k1 then v1 else if key == k2 then v2 else Null
  {
    var fields := [Field(k1, v1), Field(k2, v2)];
    if key != k1 {
      assert Lookup(fields, key) == Lookup([Field(k2, v2)], key) by {
        assert fields[1..] == [Field(k2, v2)];
      }
      if key != k2 {
        assert Lookup([Field(k2, v2)], key) == Lookup([], key) by {
          assert [Field(k2, v2)][1..] == [];
        }
      }
    }
  }

  /**
   * The ch8 upgrade: a hi-fi Researcher's cited answer, passed as facts, is
   * what the ch8 Writer writes from; the ch6 Writer does not see it and,
   * without previous content, rejects the input.
   */
  lemma Ch8ReadsCitedAnswer(blueprint: Value, answer: string)
    requires Truthy(BlueprintString(blueprint)) && answer != ""
    ensures var msg := CreateMessage("Engine", Obj([Field("blueprint", blueprint),
              Field("facts", Single("answer_with_sources", Str(answer)))]), Null);
      && Unpack(msg, Ch8) == Ok(Brief(BlueprintString(blueprint), Str(answer)))
      && Unpack(msg, Ch6) == Err(StructuredMissing)
  {
    var output := Single("answer_with_sources", Str(answer));
    var fields := [Field("blueprint", blueprint), Field("facts", output)];
    GetOfPair("blueprint", blueprint, "facts", output, "blueprint");
    GetOfPair("blueprint", blueprint, "facts", output, "facts");
    GetOfPair("blueprint", blueprint, "facts", output, "previous_content");
    assert Get(output.fields, "facts") == Null && Get(output.fields, "summary") == Null;
    assert FactsOf(output, Ch8) == Str(answer) && FactsOf(output, Ch6) == Null;
  }

  /** A Summarizer's output passed as facts is written from its summary by both chapters. */
  lemma StructuredReadsSummary(blueprint: Value, summary: string, ch: Chapter)
    requires Truthy(BlueprintString(blueprint)) && summary != ""
    ensures Unpack(CreateMessage("Engine", Obj([Field("blueprint", blueprint),
              Field("facts", Single("summary", Str(summary)))]), Null), ch)
         == Ok(Brief(BlueprintString(blueprint), Str(summary)))
  {
    var output := Single("summary", Str(summary));
    var fields := [Field("blueprint", blueprint), Field("facts", output)];
    GetOfPair("blueprint", blueprint, "facts", output, "blueprint");
    GetOfPair("blueprint", blueprint, "facts", output, "facts");
    GetOfPair("blueprint", blueprint, "facts", output, "previous_content");
    assert Get(output.fields, "facts") == Null && Get(output.fields, "summary") == Str(summary);
    assert FactsOf(output, ch) == Str(summary);
  }

  // ---------------------------------------------------------------------------
  // commons/engine/agents_k15.py
  // ---------------------------------------------------------------------------

  const K15Missing: string := "Writer requires a valid 'blueprint' and either 'facts' or 'previous_content'."

  /**
   * The raw blueprint: the first truthy of `blueprint`, `blueprint_json`
   * and `instruction`, or else the first value of a non-empty input.
   */
  function RawBlueprint(fields: seq<Field>): Value {
    var named := Or(Or(Get(fields, "blueprint"), Get(fields, "blueprint_json")), Get(fields, "instruction"));
    if !Truthy(named) && |Values(fields)| > 0 then Values(fields)[0] else named
  }

  /**
   * The raw facts: the first truthy of `facts`, `evidence` and `data`, or
   * else the second value of an input with at least two entries.
   */
  function RawFacts(fields: seq<Field>): Value {
    var named := Or(Or(Get(fields, "facts"), Get(fields, "evidence")), Get(fields, "data"));
    if !Truthy(named) && |Values(fields)| > 1 then Values(fields)[1] else named
  }

  /**
   * `extract_text`: an agent's output gives its first truthy `blueprint_json`,
   * `summary` or `facts`, or else its own string form, which is never empty;
   * any other value is kept as it is.
   */
  function ExtractText(v: Value): (r: Value)
    ensures Truthy(r) <==> v.Obj? || Truthy(v)
    ensures !v.Obj? ==> r == v
    ensures v.Obj? && Truthy(Get(v.fields, "blueprint_json")) ==> r == Get(v.fields, "blueprint_json")
  {
    if v.Obj? then
      Or(Or(Or(Get(v.fields, "blueprint_json"), Get(v.fields, "summary")), Get(v.fields, "facts")), Str(StrForm(v)))
    else v
  }

  /** `agent_writer` of commons/engine/agents_k15.py. */
  function WriterK15(services: Services, msg: Message): (r: Result<Message>)
    ensures !msg.content.Obj? ==> r.Err?
    ensures msg.content.Obj? ==>
      var fields := msg.content.fields;
      var blueprint := RawBlueprint(fields);
      var facts := RawFacts(fields);
      var previous := Get(fields, "previous_content");
      var ready := (blueprint.Obj? || Truthy(blueprint)) && (facts.Obj? || Truthy(facts) || Truthy(previous));
      var material := if facts.Obj? || Truthy(facts) then ExtractText(facts) else previous;
      && (!ready ==> r == Err(K15Missing))
      && (ready ==> (r.Ok? <==> services.generate(Compose(Some(ExtractText(blueprint)), material)).Ok?))
      && (ready && r.Ok? ==> r.value == CreateMessage("Writer", Single("report",
            Str(services.generate(Compose(Some(ExtractText(blueprint)), material)).value)), Null))
  {
    match DictGet(msg.content, "blueprint")
    case Err(e) => Err(e)
    case Ok(_) =>
      var blueprint := ExtractText(RawBlueprint(msg.content.fields));
      var facts := ExtractText(RawFacts(msg.content.fields));
      var previous := Get(msg.content.fields, "previous_content");
      if !Truthy(blueprint) || !(Truthy(facts) || Truthy(previous)) then Err(K15Missing)
      else
        match services.generate(Compose(Some(blueprint), if Truthy(facts) then facts else previous))
        case Err(e) => Err(e)
        case Ok(report) => Ok(CreateMessage("Writer", Single("report", Str(report)), Null))
  }

  /** A truthy key earlier in the blueprint chain wins over the later ones and over position. */
  lemma NamedBlueprintFirst(fields: seq<Field>)
    ensures Truthy(Get(fields, "blueprint")) ==> RawBlueprint(fields) == Get(fields, "blueprint")
    ensures !Truthy(Get(fields, "blueprint")) && Truthy(Get(fields, "blueprint_json"))
      ==> RawBlueprint(fields) == Get(fields, "blueprint_json")
    ensures !Truthy(Get(fields, "blueprint")) && !Truthy(Get(fields, "blueprint_json")) && Truthy(Get(fields, "instruction"))
      ==> RawBlueprint(fields) == Get(fields, "instruction")
  {
  }

  /** A truthy key earlier in the facts chain wins over the later ones and over position. */
  lemma NamedFactsFirst(fields: seq<Field>)
    ensures Truthy(Get(fields, "facts")) ==> RawFacts(fields) == Get(fields, "facts")
    ensures !Truthy(Get(fields, "facts")) && Truthy(Get(fields, "evidence")) ==> RawFacts(fields) == Get(fields, "evidence")
    ensures !Truthy(Get(fields, "facts")) && !Truthy(Get(fields, "evidence")) && Truthy(Get(fields, "data"))
      ==> RawFacts(fields) == Get(fields, "data")
  {
  }

  /**
   * With none of the keys truthy, the blueprint is the first value and the
   * facts are the second, in insertion order; with too few entries nothing
   * truthy is found.
   */
  lemma PositionalFallback(fields: seq<Field>)
    ensures !Truthy(Get(fields, "blueprint")) && !Truthy(Get(fields, "blueprint_json")) && !Truthy(Get(fields, "instruction"))
      ==> (if |fields| > 0 then RawBlueprint(fields) == fields[0].val else !Truthy(RawBlueprint(fields)))
    ensures !Truthy(Get(fields, "facts")) && !Truthy(Get(fields, "evidence")) && !Truthy(Get(fields, "data"))
      ==> (if |fields| > 1 then RawFacts(fields) == fields[1].val else !Truthy(RawFacts(fields)))
  {
  }

  /**
   * A facts value that comes first under an unknown key is passed over: when
   * the blueprint comes second, the blueprint is also taken as the evidence.
   */
  lemma BlueprintTakenAsEvidence(services: Services, key: string, facts: Value, blueprint: string)
    requires key !in {"facts", "evidence", "data", "blueprint", "blueprint_json", "instruction", "previous_content"}
    requires blueprint != ""
    ensures var msg := CreateMessage("Engine", Obj([Field(key, facts), Field("blueprint", Str(blueprint))]), Null);
      WriterK15(services, msg).Ok? <==> services.generate(Compose(Some(Str(blueprint)), Str(blueprint))).Ok?
  {
    var fields := [Field(key, facts), Field("blueprint", Str(blueprint))];
    assert Get(fields, "facts") == Null && Get(fields, "evidence") == Null && Get(fields, "data") == Null;
    assert Get(fields, "previous_content") == Null;
    assert RawFacts(fields) == Str(blueprint);
  }

  /** The plan's usual step-2 input, a blueprint and a Summarizer output, is written from the summary. */
  lemma K15ReadsSummary(services: Services, blueprint: string, summary: string)
    requires blueprint != "" && summary != ""
    ensures var msg := CreateMessage("Engine", Obj([Field("blueprint", Str(blueprint)),
              Field("facts", Single("summary", Str(summary)))]), Null);
      WriterK15(services, msg) == match services.generate(Compose(Some(Str(blueprint)), Str(summary)))
        case Ok(report) => Ok(CreateMessage("Writer", Single("report", Str(report)), Null))
        case Err(e) => Err(e)
  {
    var output := Single("summary", Str(summary));
    var fields := [Field("blueprint", Str(blueprint)), Field("facts", output)];
    GetOfPair("blueprint", Str(blueprint), "facts", output, "blueprint");
    GetOfPair("blueprint", Str(blueprint), "facts", output, "facts");
    GetOfPair("blueprint", Str(blueprint), "facts", output, "previous_content");
    assert RawBlueprint(fields) == Str(blueprint);
    assert RawFacts(fields) == output;
    assert Get(output.fields, "blueprint_json") == Null;
    assert Get(output.fields, "summary") == Str(summary);
    assert ExtractText(output) == Str(summary);
  }
}
