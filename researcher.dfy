/**
 * The high-fidelity `agent_researcher` of commons/engine/agents_k15.py
 * (`top_k=15`) and commons/ch8/agents.py (`top_k=3`): every retrieved chunk
 * is sanitised; a chunk that fails is skipped and contributes neither text
 * nor source; the sources of the kept chunks are collected in a set and
 * cited, sorted, after the generated answer.
 *
 * `Screened` and `ResearchAnswer` state the result; `AgentResearcher` is the
 * collection loop itself, proved to produce it.
 */
module HiFiResearch {
  import opened Wrappers
  import opened Json
  import opened Mcp
  import opened Text
  import opened Order
  import opened Sanitizer
  import opened Agents
  import Registry

  const Suspect: string := "Could not generate a reliable answer as retrieved data was suspect."
  const SourcesHeader: string := "\n\n**Sources:**\n"

  /** What one match yields: nothing (it failed sanitisation), or its text and the source it names. */
  datatype Screen = Skip | Keep(text: string, source: Option<string>)

  /**
   * One iteration of the loop over the matches. Only the sanitiser's
   * `ValueError` is caught: a missing key or a text that is not a string
   * escapes the loop.
   */
  function ReadChunk(m: Value): (r: Result<Screen>)
    ensures r.Ok? ==> MetadataField(m, "text").Ok? && MetadataField(m, "text").value.Str?
    ensures r.Ok? ==> (r.value.Keep? <==> Sanitize(MetadataField(m, "text").value.s).Ok?)
    ensures r.Ok? && r.value.Keep? ==> r.value.text == MetadataField(m, "text").value.s
    ensures r.Ok? && r.value.Keep? && r.value.source.Some? ==>
      Index(m, "metadata").Ok? && Index(Index(m, "metadata").value, "source") == Ok(Str(r.value.source.value))
    ensures r.Ok? && r.value.Keep? ==>
      Index(m, "metadata").Ok? && (r.value.source.Some? <==> HasKey(Index(m, "metadata").value.fields, "source"))
  {
    match MetadataField(m, "text")
    case Err(e) => Err(e)
    case Ok(text) =>
      if !text.Str? then Err("expected string or bytes-like object, got '" + TypeName(text) + "'")
      else if Sanitize(text.s).Err? then Ok(Skip)
      else
        var metadata := Index(m, "metadata").value;
        if !HasKey(metadata.fields, "source") then Ok(Keep(text.s, None))
        else
          match Get(metadata.fields, "source")
          case Str(source) => Ok(Keep(text.s, Some(source)))
          case other => Err("non-string source of type '" + TypeName(other) + "'")
  }

  /** The kept texts in order, and the sources they name in order (repeats included). */
  datatype Screening = Screening(texts: seq<string>, sources: seq<string>)

  /** One more match seen by the loop: an escaping error ends it, a skipped chunk changes nothing. */
  function Extend(sofar: Result<Screening>, chunk: Result<Screen>): Result<Screening> {
    match sofar
    case Err(e) => Err(e)
    case Ok(s) =>
      match chunk
      case Err(e) => Err(e)
      case Ok(Skip) => Ok(s)
      case Ok(Keep(t, source)) =>
        Ok(Screening(s.texts + [t], s.sources + (if source.Some? then [source.value] else [])))
  }

  /**
   * The loop over the matches, as a function of the matches seen so far,
   * each read by `read` (`ReadChunk` in the agent).
   */
  function Screened(read: Value -> Result<Screen>, results: seq<Value>): Result<Screening> {
    if results == [] then Ok(Screening([], []))
    else Extend(Screened(read, results[..|results| - 1]), read(results[|results| - 1]))
  }

  /** The i-th match is kept. */
  predicate KeptAt(read: Value -> Result<Screen>, results: seq<Value>, k: int)
    requires 0 <= k < |results|
  {
    read(results[k]).Ok? && read(results[k]).value.Keep?
  }

  /** The loop finishes only when every match could be read, and it keeps at most one text per match. */
  lemma {:induction false} ScreenedReadsAll(read: Value -> Result<Screen>, results: seq<Value>)
    requires Screened(read, results).Ok?
    ensures forall k :: 0 <= k < |results| ==> read(results[k]).Ok?
    ensures |Screened(read, results).value.texts| <= |results|
    decreases |results|
  {
    if results != [] {
      var n := |results| - 1;
      ScreenedReadsAll(read, results[..n]);
      assert forall k :: 0 <= k < n ==> results[..n][k] == results[k];
    }
  }

  /** Every kept text is the text of a match that was kept. */
  lemma {:induction false} ScreenedTextsKept(read: Value -> Result<Screen>, results: seq<Value>)
    requires Screened(read, results).Ok?
    ensures forall t :: t in Screened(read, results).value.texts ==>
      exists k :: 0 <= k < |results| && KeptAt(read, results, k) && read(results[k]).value.text == t
    decreases |results|
  {
    if results != [] {
      var n := |results| - 1;
      ScreenedTextsKept(read, results[..n]);
      ScreenedReadsAll(read, results);
      forall t | t in Screened(read, results).value.texts
        ensures exists k :: 0 <= k < |results| && KeptAt(read, results, k) && read(results[k]).value.text == t
      {
        if t in Screened(read, results[..n]).value.texts {
          var k :| 0 <= k < n && KeptAt(read, results[..n], k) && read(results[..n][k]).value.text == t;
          assert results[..n][k] == results[k];
        } else {
          assert KeptAt(read, results, n);
        }
      }
    }
  }

  /** Every text the agent keeps passes the sanitiser. */
  lemma ScreenedTextsClean(results: seq<Value>)
    requires Screened(ReadChunk, results).Ok?
    ensures forall t :: t in Screened(ReadChunk, results).value.texts ==> Sanitize(t).Ok?
  {
    ScreenedTextsKept(ReadChunk, results);
  }

  /** When every match fails sanitisation, no text is kept. */
  lemma {:induction false} ScreenedNothingKept(read: Value -> Result<Screen>, results: seq<Value>)
    requires forall k :: 0 <= k < |results| ==> read(results[k]) == Ok(Skip)
    ensures Screened(read, results) == Ok(Screening([], []))
    decreases |results|
  {
    if results != [] {
      var n := |results| - 1;
      assert forall k :: 0 <= k < n ==> results[..n][k] == results[k];
      ScreenedNothingKept(read, results[..n]);
    }
  }

  /** A source is collected exactly when a match that passed sanitisation names it. */
  lemma {:induction false} ScreenedSources(read: Value -> Result<Screen>, results: seq<Value>)
    requires Screened(read, results).Ok?
    ensures forall y :: y in Screened(read, results).value.sources <==>
      exists k :: 0 <= k < |results| && KeptAt(read, results, k) && read(results[k]).value.source == Some(y)
    decreases |results|
  {
    if results != [] {
      var n := |results| - 1;
      var init := results[..n];
      ScreenedSources(read, init);
      ScreenedReadsAll(read, results);
      assert forall k :: 0 <= k < n ==> init[k] == results[k];
      var s := Screened(read, init).value;
      var c := read(results[n]).value;
      assert Screened(read, results).value.sources == s.sources + (if c.Keep? && c.source.Some? then [c.source.value] else []);
      forall y ensures y in Screened(read, results).value.sources <==>
        exists k :: 0 <= k < |results| && KeptAt(read, results, k) && read(results[k]).value.source == Some(y)
      {
        if exists k :: 0 <= k < |results| && KeptAt(read, results, k) && read(results[k]).value.source == Some(y) {
          var k :| 0 <= k < |results| && KeptAt(read, results, k) && read(results[k]).value.source == Some(y);
          if k < n {
            assert KeptAt(read, init, k) && read(init[k]).value.source == Some(y);
          }
        }
        if y in s.sources {
          var k :| 0 <= k < n && KeptAt(read, init, k) && read(init[k]).value.source == Some(y);
          assert KeptAt(read, results, k);
        }
      }
    }
  }

  /** A chunk that escapes ends the whole loop with its error. */
  lemma {:induction false} ScreenedStops(read: Value -> Result<Screen>, results: seq<Value>, i: nat, n: nat)
    requires i < n <= |results|
    requires Screened(read, results[..i]).Ok? && read(results[i]).Err?
    ensures Screened(read, results[..n]) == Err(read(results[i]).error)
    decreases n
  {
    if n > i + 1 {
      ScreenedStops(read, results, i, n - 1);
      assert results[..n][..n - 1] == results[..n - 1];
    } else {
      assert results[..n][..n - 1] == results[..i];
    }
  }

  /** `"\n".join([f"- {s}" for s in sources])` */
  function Bullets(sources: seq<string>): (r: seq<string>)
    ensures |r| == |sources| && forall k :: 0 <= k < |sources| ==> r[k] == "- " + sources[k]
  {
    if sources == [] then [] else ["- " + sources[0]] + Bullets(sources[1..])
  }

  /** The generated findings followed by the citation block. */
  function Cited(findings: string, sources: seq<string>): string {
    findings + SourcesHeader + Join(Bullets(sources), "\n")
  }

  /** The citation block names every source, each as a bullet line. */
  lemma CitesEverySource(findings: string, sources: seq<string>, y: string)
    requires y in sources
    ensures Contains(Cited(findings, sources), "- " + y)
  {
    var k :| 0 <= k < |sources| && sources[k] == y;
    JoinContains(Bullets(sources), "\n", k);
    ContainsRight(findings + SourcesHeader, Join(Bullets(sources), "\n"));
    ContainsTrans(Cited(findings, sources), Join(Bullets(sources), "\n"), "- " + y);
  }

  function NoAnswer(answer: string): Value {
    Obj([Field("answer", Str(answer)), Field("sources", Arr([]))])
  }

  /** The high-fidelity `agent_researcher(mcp_message, ...)`, searching for `topK` matches. */
  function ResearchAnswer(services: Services, msg: Message, topK: nat): (r: Result<Message>)
    ensures r.Ok? ==> msg.content.Obj? && Truthy(Get(msg.content.fields, "topic_query"))
    ensures r.Ok? ==> r.value.sender == "Researcher"
    ensures msg.content.Obj? && !Truthy(Get(msg.content.fields, "topic_query")) ==> r == Err(ResearcherMissing)
  {
    match DictGet(msg.content, "topic_query")
    case Err(e) => Err(e)
    case Ok(topic) =>
      if !Truthy(topic) then Err(ResearcherMissing)
      else
        match services.search(Query(topic, Registry.NamespaceKnowledge, topK))
        case Err(e) => Err(e)
        case Ok(results) =>
          if results == [] then Ok(CreateMessage("Researcher", NoAnswer(NoData), Null))
          else
            match Screened(ReadChunk, results)
            case Err(e) => Err(e)
            case Ok(s) =>
              if s.texts == [] then Ok(CreateMessage("Researcher", NoAnswer(Suspect), Null))
              else
                match services.generate(Research(topic, s.texts))
                case Err(e) => Err(e)
                case Ok(findings) =>
                  Ok(CreateMessage("Researcher", Single("answer_with_sources", Str(Cited(findings, Sorted(s.sources)))), Null))
  }

  /**
   * The collection loop of the Researcher: sanitise each match in turn, keep
   * the clean texts in order and gather the set of their sources; the first
   * malformed match ends the loop with its error.
   */
  method ScreenMatches(results: seq<Value>) returns (r: Result<(seq<string>, set<string>)>)
    ensures r.Ok? <==> Screened(ReadChunk, results).Ok?
    ensures r.Ok? ==>
      && r.value.0 == Screened(ReadChunk, results).value.texts
      && forall y :: y in r.value.1 <==> y in Screened(ReadChunk, results).value.sources
    ensures r.Err? ==> r.error == Screened(ReadChunk, results).error
  {
    var sanitizedTexts: seq<string> := [];
    var sources: set<string> := {};
    var i := 0;
    while i < |results|
      invariant 0 <= i <= |results|
      invariant Screened(ReadChunk, results[..i]).Ok?
      invariant Screened(ReadChunk, results[..i]).value.texts == sanitizedTexts
      invariant forall y :: y in Screened(ReadChunk, results[..i]).value.sources <==> y in sources
    {
      assert results[..i + 1][..i] == results[..i];
      var chunk := ReadChunk(results[i]);
      if chunk.Err? {
        ScreenedStops(ReadChunk, results, i, |results|);
        assert results[..|results|] == results;
        return Err(chunk.error);
      }
      if chunk.value.Keep? {
        sanitizedTexts := sanitizedTexts + [chunk.value.text];
        if chunk.value.source.Some? {
          sources := sources + {chunk.value.source.value};
        }
      }
      i := i + 1;
    }
    assert results[..|results|] == results;
    return Ok((sanitizedTexts, sources));
  }

  /** `agent_researcher`: look the topic up, screen the matches, then cite the sources of the clean ones, sorted. */
  method AgentResearcher(services: Services, msg: Message, topK: nat) returns (r: Result<Message>)
    ensures r == ResearchAnswer(services, msg, topK)
  {
    var topic := DictGet(msg.content, "topic_query");
    if topic.Err? {
      return Err(topic.error);
    }
    if !Truthy(topic.value) {
      return Err(ResearcherMissing);
    }
    var found := services.search(Query(topic.value, Registry.NamespaceKnowledge, topK));
    if found.Err? {
      return Err(found.error);
    }
    var results := found.value;
    if results == [] {
      return Ok(CreateMessage("Researcher", NoAnswer(NoData), Null));
    }

    var screened := ScreenMatches(results);
    if screened.Err? {
      return Err(screened.error);
    }
    var (sanitizedTexts, sources) := screened.value;
    if sanitizedTexts == [] {
      return Ok(CreateMessage("Researcher", NoAnswer(Suspect), Null));
    }
    var findings := services.generate(Research(topic.value, sanitizedTexts));
    if findings.Err? {
      return Err(findings.error);
    }
    var cited := SortedList(sources);
    IncreasingUnique(cited, Sorted(Screened(ReadChunk, results).value.sources));
    return Ok(CreateMessage("Researcher", Single("answer_with_sources", Str(Cited(findings.value, cited))), Null));
  }

  // ---------------------------------------------------------------------------
  // Properties of the answer.
  // ---------------------------------------------------------------------------

  /** With no match the Researcher reports that nothing was found, with no sources. */
  lemma NoMatchNoData(services: Services, msg: Message, topK: nat)
    requires msg.content.Obj? && Truthy(Get(msg.content.fields, "topic_query"))
    requires services.search(Query(Get(msg.content.fields, "topic_query"), Registry.NamespaceKnowledge, topK)) == Ok([])
    ensures ResearchAnswer(services, msg, topK) == Ok(CreateMessage("Researcher", NoAnswer(NoData), Null))
  {
  }

  /** When every match fails sanitisation, nothing is generated and the answer is the "suspect" message. */
  lemma AllSuspect(services: Services, msg: Message, topK: nat)
    requires msg.content.Obj? && Truthy(Get(msg.content.fields, "topic_query"))
    requires var found := services.search(Query(Get(msg.content.fields, "topic_query"), Registry.NamespaceKnowledge, topK));
      found.Ok? && found.value != []
      && forall k :: 0 <= k < |found.value| ==> ReadChunk(found.value[k]) == Ok(Skip)
    ensures ResearchAnswer(services, msg, topK) == Ok(CreateMessage("Researcher", NoAnswer(Suspect), Null))
  {
    var results := services.search(Query(Get(msg.content.fields, "topic_query"), Registry.NamespaceKnowledge, topK)).value;
    ScreenedNothingKept(ReadChunk, results);
  }

  /**
   * A synthesised answer is what the model generated from texts that all
   * passed sanitisation, followed by the citation of exactly the sources
   * named by the matches that passed it, in increasing order and once each.
   */
  lemma CitesCleanSources(services: Services, msg: Message, topK: nat)
    requires ResearchAnswer(services, msg, topK).Ok?
    requires ResearchAnswer(services, msg, topK).value.content.Obj?
    requires HasKey(ResearchAnswer(services, msg, topK).value.content.fields, "answer_with_sources")
    ensures var topic := Get(msg.content.fields, "topic_query");
      var results := services.search(Query(topic, Registry.NamespaceKnowledge, topK)).value;
      && Screened(ReadChunk, results).Ok?
      && var texts := Screened(ReadChunk, results).value.texts;
      && var cited := Sorted(Screened(ReadChunk, results).value.sources);
      && texts != []
      && (forall t :: t in texts ==> Sanitize(t).Ok?)
      && services.generate(Research(topic, texts)).Ok?
      && ResearchAnswer(services, msg, topK).value.content
           == Single("answer_with_sources", Str(Cited(services.generate(Research(topic, texts)).value, cited)))
      && Increasing(cited)
      && forall y :: y in cited <==>
           exists k :: 0 <= k < |results| && KeptAt(ReadChunk, results, k) && ReadChunk(results[k]).value.source == Some(y)
  {
    var results := services.search(Query(Get(msg.content.fields, "topic_query"), Registry.NamespaceKnowledge, topK)).value;
    CitedAnswer(services, msg, topK);
    ScreenedSources(ReadChunk, results);
    ScreenedTextsClean(results);
  }

  /** An answer with sources comes from a non-empty screening and a successful generation. */
  lemma CitedAnswer(services: Services, msg: Message, topK: nat)
    requires ResearchAnswer(services, msg, topK).Ok?
    requires ResearchAnswer(services, msg, topK).value.content.Obj?
    requires HasKey(ResearchAnswer(services, msg, topK).value.content.fields, "answer_with_sources")
    ensures var topic := Get(msg.content.fields, "topic_query");
      var found := services.search(Query(topic, Registry.NamespaceKnowledge, topK));
      && found.Ok? && found.value != []
      && Screened(ReadChunk, found.value).Ok?
      && var sc := Screened(ReadChunk, found.value).value;
      && sc.texts != []
      && services.generate(Research(topic, sc.texts)).Ok?
      && ResearchAnswer(services, msg, topK).value.content
           == Single("answer_with_sources", Str(Cited(services.generate(Research(topic, sc.texts)).value, Sorted(sc.sources))))
  {
  }

}
