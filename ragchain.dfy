/**
 * core/rag_chain.py: the EoraRAGChain orchestrator. FAISS, the embeddings
 * and the chat model are the Services oracle. The model keeps the order in
 * which load_documents merges file chunks and web pages and when it
 * replaces the store, the k fallback of search_relevant_docs, the fixed
 * order of checks in generate_answer, the prompt texts and the numbered
 * reference context.
 */
module RagChain {
  import opened Text
  import opened Values
  import opened Errors
  import opened Validation
  import opened Settings
  import opened Crawler
  import opened Loader

  /** A built FAISS index over the documents it was built from. */
  datatype VectorStore = VectorStore(indexed: seq<Document>)

  /** What format_messages produces: one human message. */
  datatype Message = HumanMessage(content: string)

  /**
   * The libraries behind the chain: FAISS.from_documents with the embeddings
   * (which may raise), similarity_search (which may raise) and llm.invoke,
   * of whose response only `.content` is used.
   */
  datatype Services = Services(
    fromDocuments: seq<Document> -> Outcome<VectorStore>,
    similaritySearch: (VectorStore, string, int) -> Outcome<seq<Document>>,
    invoke: seq<Message> -> Outcome<Value>)

  // ---------------------------------------------------------------------------
  // Prompts
  // ---------------------------------------------------------------------------

  /** A ChatPromptTemplate built from instruction + the shared tail with {context} and {question}. */
  datatype PromptTemplate = PromptTemplate(instruction: string)

  const ContextLead := "\n\nКонтекст:\n"
  const ContextSlot := "{context}"
  const QuestionLead := "\n\nВопрос: "
  const QuestionSlot := "{question}"
  const AnswerTail := "\n\nОтвет:"
  /** The tail every template shares: "\n\nКонтекст:\n{context}\n\nВопрос: {question}\n\nОтвет:". */
  const PromptTail := ContextLead + ContextSlot + QuestionLead + QuestionSlot + AnswerTail
  const BaseInstruction := "Используя только предоставленную информацию, ответьте на вопрос."

  /** The template text the source passes to from_template. */
  function TemplateText(p: PromptTemplate): string
  {
    p.instruction + PromptTail
  }

  /** An instruction followed by the shared tail, with the two slots holding the given texts. */
  function Filled(instruction: string, context: string, question: string): string
  {
    instruction + ContextLead + context + QuestionLead + question + AnswerTail
  }

  /** _get_easy_prompt. */
  function EasyPrompt(): PromptTemplate
  {
    PromptTemplate(BaseInstruction)
  }

  const SourcesRequestLead := " В конце ответа укажите '"
  const SourcesLine := "Источники: [1], [2], ..."
  const SourcesRequestEnd := "' для использованных материалов."

  /** _get_medium_prompt: asks for a closing 'Источники: [1], [2], ...' line. */
  function MediumPrompt(): PromptTemplate
  {
    PromptTemplate(BaseInstruction + SourcesRequestLead + SourcesLine + SourcesRequestEnd)
  }

  const InlineRequestLead := " Добавляйте ссылки на источники прямо в текст в формате "
  const InlineReferences := "[1], [2]"
  const InlineRequestEnd := " и т.д."

  /** _get_hard_prompt: asks for inline [1], [2] references. */
  function HardPrompt(): PromptTemplate
  {
    PromptTemplate(BaseInstruction + InlineRequestLead + InlineReferences + InlineRequestEnd)
  }

  /** The prompt generate_answer picks for a (validated) level. */
  function PromptFor(level: string): PromptTemplate
  {
    if level == "easy" then EasyPrompt() else if level == "medium" then MediumPrompt() else HardPrompt()
  }

  /** All three templates open with the same "use only the given information" instruction. */
  lemma PromptsShareInstruction()
    ensures StartsWith(TemplateText(EasyPrompt()), BaseInstruction)
    ensures StartsWith(TemplateText(MediumPrompt()), BaseInstruction)
    ensures StartsWith(TemplateText(HardPrompt()), BaseInstruction)
  {
    ConcatEnds(BaseInstruction, PromptTail);
    ConcatEnds(BaseInstruction, SourcesRequestLead);
    PrefixExtends(BaseInstruction + SourcesRequestLead, BaseInstruction, SourcesLine);
    PrefixExtends(BaseInstruction + SourcesRequestLead + SourcesLine, BaseInstruction, SourcesRequestEnd);
    PrefixExtends(MediumPrompt().instruction, BaseInstruction, PromptTail);
    ConcatEnds(BaseInstruction, InlineRequestLead);
    PrefixExtends(BaseInstruction + InlineRequestLead, BaseInstruction, InlineReferences);
    PrefixExtends(BaseInstruction + InlineRequestLead + InlineReferences, BaseInstruction, InlineRequestEnd);
    PrefixExtends(HardPrompt().instruction, BaseInstruction, PromptTail);
  }

  /** Whatever the level, the template closes with the context, question and answer slots. */
  lemma PromptsShareSlots(level: string)
    ensures EndsWith(TemplateText(PromptFor(level)), PromptTail)
  {
    ConcatEnds(PromptFor(level).instruction, PromptTail);
  }

  /** The medium template asks for a closing "Источники: [1], [2], ..." line, right after the base instruction and the request's lead. */
  lemma MediumPromptAsksForSources()
    ensures OccursAt(TemplateText(MediumPrompt()), SourcesLine, |BaseInstruction| + |SourcesRequestLead|)
    ensures forall context, question ::
      OccursAt(FormatMessages(MediumPrompt(), context, question)[0].content, SourcesLine,
               |BaseInstruction| + |SourcesRequestLead|)
  {
    var lead := BaseInstruction + SourcesRequestLead;
    assert TemplateText(MediumPrompt()) == lead + SourcesLine + (SourcesRequestEnd + PromptTail);
    ConcatMiddle(lead, SourcesLine, SourcesRequestEnd + PromptTail);
    ConcatEnds(lead + SourcesLine, SourcesRequestEnd);
    forall context, question
      ensures OccursAt(FormatMessages(MediumPrompt(), context, question)[0].content, SourcesLine,
                       |BaseInstruction| + |SourcesRequestLead|)
    {
      InstructionOpensMessage(MediumPrompt(), context, question, lead, SourcesLine);
    }
  }

  /** The hard template asks for inline "[1], [2]" references. */
  lemma HardPromptAsksForInlineReferences()
    ensures OccursAt(TemplateText(HardPrompt()), InlineReferences, |BaseInstruction| + |InlineRequestLead|)
    ensures forall context, question ::
      OccursAt(FormatMessages(HardPrompt(), context, question)[0].content, InlineReferences,
               |BaseInstruction| + |InlineRequestLead|)
  {
    var lead := BaseInstruction + InlineRequestLead;
    assert TemplateText(HardPrompt()) == lead + InlineReferences + (InlineRequestEnd + PromptTail);
    ConcatMiddle(lead, InlineReferences, InlineRequestEnd + PromptTail);
    ConcatEnds(lead + InlineReferences, InlineRequestEnd);
    forall context, question
      ensures OccursAt(FormatMessages(HardPrompt(), context, question)[0].content, InlineReferences,
                       |BaseInstruction| + |InlineRequestLead|)
    {
      InstructionOpensMessage(HardPrompt(), context, question, lead, InlineReferences);
    }
  }

  /** Whatever occurs in the instruction occurs at the same place in the filled message. */
  lemma InstructionOpensMessage(p: PromptTemplate, context: string, question: string, lead: string, t: string)
    requires StartsWith(p.instruction, lead + t)
    ensures OccursAt(FormatMessages(p, context, question)[0].content, t, |lead|)
  {
    var c := FormatMessages(p, context, question)[0].content;
    assert c[..|p.instruction|] == p.instruction;
    assert c[|lead|..|lead| + |t|] == p.instruction[|lead|..|lead| + |t|];
    assert (lead + t)[|lead|..] == t;
  }

  /** prompt.format_messages(context=..., question=...): {context} and {question} filled in once each. */
  function FormatMessages(p: PromptTemplate, context: string, question: string): (msgs: seq<Message>)
    ensures |msgs| == 1
  {
    [HumanMessage(Filled(p.instruction, context, question))]
  }

  /**
   * The message is the template text with {context} and {question} replaced:
   * the template is the instruction and tail with the slot names in the
   * slots, the message the same with the given texts there.
   */
  lemma FormatMessagesFillsTemplate(p: PromptTemplate, context: string, question: string)
    ensures TemplateText(p) == Filled(p.instruction, ContextSlot, QuestionSlot)
    ensures FormatMessages(p, context, question)[0].content == Filled(p.instruction, context, question)
  {
    AppendAssociates(p.instruction, ContextLead + ContextSlot + QuestionLead + QuestionSlot, AnswerTail);
    AppendAssociates(p.instruction, ContextLead + ContextSlot + QuestionLead, QuestionSlot);
    AppendAssociates(p.instruction, ContextLead + ContextSlot, QuestionLead);
    AppendAssociates(p.instruction, ContextLead, ContextSlot);
  }

  /** The filled prompt carries the instruction, then the context and the question verbatim, then "Ответ:". */
  lemma FormatMessagesCarries(p: PromptTemplate, context: string, question: string)
    ensures var c := FormatMessages(p, context, question)[0].content;
      var k := |p.instruction| + |ContextLead|;
      && StartsWith(c, p.instruction)
      && OccursAt(c, context, k)
      && OccursAt(c, question, k + |context| + |QuestionLead|)
      && EndsWith(c, AnswerTail)
  {
    var c := FormatMessages(p, context, question)[0].content;
    var k := |p.instruction| + |ContextLead|;
    assert c[..|p.instruction|] == p.instruction;
    assert c[k..k + |context|] == context;
    var q := k + |context| + |QuestionLead|;
    assert c[q..q + |question|] == question;
  }

  // ---------------------------------------------------------------------------
  // The reference context
  // ---------------------------------------------------------------------------

  /** The name a block shows: source_file, else url, else "Источник i". */
  function SourceName(md: Metadata, i: nat): Value
  {
    Get(md, "source_file", Get(md, "url", Str("Источник " + NatToString(i))))
  }

  /** The 1-based label "[i]". */
  function Label(i: nat): string
  {
    "[" + NatToString(i) + "]"
  }

  /** The block for the i-th document (1-based). */
  function ReferenceBlock(doc: Document, i: nat): string
  {
    Label(i) + " (" + Display(SourceName(doc.metadata, i)) + "):\n" + doc.content
  }

  function ReferenceBlocks(docs: seq<Document>): (blocks: seq<string>)
    ensures |blocks| == |docs|
    ensures forall k | 0 <= k < |docs| :: blocks[k] == ReferenceBlock(docs[k], k + 1)
  {
    seq(|docs|, k requires 0 <= k < |docs| => ReferenceBlock(docs[k], k + 1))
  }

  /** What _prepare_context_with_references returns. */
  function ContextWithReferences(docs: seq<Document>): string
  {
    Join("\n\n", ReferenceBlocks(docs))
  }

  function Contents(docs: seq<Document>): (contents: seq<string>)
    ensures |contents| == |docs|
    ensures forall k | 0 <= k < |docs| :: contents[k] == docs[k].content
  {
    seq(|docs|, k requires 0 <= k < |docs| => docs[k].content)
  }

  /** The easy level's context: the bare contents joined by blank lines. */
  function EasyContext(docs: seq<Document>): string
  {
    Join("\n\n", Contents(docs))
  }

  /** The name a block shows: source_file, else url, else "Источник i". */
  lemma SourceNameChoice(md: Metadata, i: nat)
    ensures "source_file" in md ==> SourceName(md, i) == md["source_file"]
    ensures "source_file" !in md && "url" in md ==> SourceName(md, i) == md["url"]
    ensures "source_file" !in md && "url" !in md ==> SourceName(md, i) == Str("Источник " + NatToString(i))
  {
  }

  /**
   * Numbering stays aligned: the i-th block (0-based) of the context sits at
   * its join offset, is labelled [i+1], names document i's source_file, else
   * its url, else "Источник i+1", and ends with document i's content; blocks
   * follow one another in document order.
   */
  lemma ContextBlockAt(docs: seq<Document>, i: nat)
    requires i < |docs|
    ensures var blocks := ReferenceBlocks(docs);
      var at := JoinOffset("\n\n", blocks, i);
      && at + |blocks[i]| <= |ContextWithReferences(docs)|
      && ContextWithReferences(docs)[at..at + |blocks[i]|]
         == Label(i + 1) + " (" + Display(SourceName(docs[i].metadata, i + 1)) + "):\n" + docs[i].content
      && (i + 1 < |docs| ==> at + |blocks[i]| + 2 <= JoinOffset("\n\n", blocks, i + 1))
  {
    var blocks := ReferenceBlocks(docs);
    assert blocks[i] == ReferenceBlock(docs[i], i + 1);
    JoinPartAt("\n\n", blocks, i);
    if i + 1 < |docs| {
      JoinOffsetsOrdered("\n\n", blocks, i, i + 1);
    }
  }

  /** Two blocks never carry the same label. */
  lemma LabelsDistinct(i: nat, j: nat)
    requires i != j
    ensures Label(i) != Label(j)
  {
    if Label(i) == Label(j) {
      assert NatToString(i) == Label(i)[1..|Label(i)| - 1];
      assert NatToString(j) == Label(j)[1..|Label(j)| - 1];
      NatToStringInjective(i, j);
    }
  }

  /** Each document's content appears in the easy context at its join offset. */
  lemma EasyContextHoldsContents(docs: seq<Document>, i: nat)
    requires i < |docs|
    ensures var at := JoinOffset("\n\n", Contents(docs), i);
      at + |docs[i].content| <= |EasyContext(docs)| && EasyContext(docs)[at..at + |docs[i].content|] == docs[i].content
  {
    JoinPartAt("\n\n", Contents(docs), i);
  }

  // ---------------------------------------------------------------------------
  // Retrieval and generation
  // ---------------------------------------------------------------------------

  /** search_relevant_docs against an optional store: [] without one, else k or SEARCH_K results. */
  function Retrieve(store: Option<VectorStore>, services: Services, config: Config, query: string, k: Option<int>): (r: Outcome<seq<Document>>)
  {
    match store
    case None => Returned([])
    case Some(vs) => services.similaritySearch(vs, query, OrDefault(k, config.searchK))
  }

  /** Without a store every query finds nothing; with one, None and 0 both mean SEARCH_K. */
  lemma SearchProperties(store: Option<VectorStore>, services: Services, config: Config, query: string, k: Option<int>)
    ensures store.None? ==> Retrieve(store, services, config, query, k) == Returned([])
    ensures Retrieve(store, services, config, query, None) == Retrieve(store, services, config, query, Some(0))
    ensures store.Some? && k.Some? && k.value != 0 ==>
      Retrieve(store, services, config, query, k) == services.similaritySearch(store.value, query, k.value)
  {
  }

  const FallbackAnswer := "Извините, я не нашел релевантной информации для ответа на ваш вопрос."

  /** The record returned when retrieval finds nothing. */
  function FallbackResponse(level: string): map<string, Value>
  {
    map["answer" := Str(FallbackAnswer), "sources" := List([]), "complexity_level" := Str(level)]
  }

  /** The sources list: each retrieved document's metadata, in retrieval order. */
  function Sources(docs: seq<Document>): (sources: seq<Value>)
    ensures |sources| == |docs|
    ensures forall k | 0 <= k < |docs| :: sources[k] == Dict(docs[k].metadata)
  {
    seq(|docs|, k requires 0 <= k < |docs| => Dict(docs[k].metadata))
  }

  /** The context for a level: bare contents for easy, numbered blocks otherwise. */
  function ContextFor(level: string, docs: seq<Document>): string
  {
    if level == "easy" then EasyContext(docs) else ContextWithReferences(docs)
  }

  /** The successful record before the response checks. */
  function ResultRecord(answer: Value, docs: seq<Document>, level: string): map<string, Value>
  {
    map["answer" := answer, "sources" := List(Sources(docs)), "complexity_level" := Str(level)]
  }

  /**
   * The part of generate_answer after retrieval found docs: prompt, model
   * call, checks. What it returns is the record of the model's string answer,
   * the docs' metadata in order and the level, every source of which
   * validate_sources accepted.
   */
  function AnswerFromDocs(services: Services, query: string, level: string, docs: seq<Document>): (r: Outcome<map<string, Value>>)
    ensures r.Returned? ==>
      var msgs := FormatMessages(PromptFor(level), ContextFor(level, docs), query);
      && services.invoke(msgs).Returned?
      && r.value == ResultRecord(services.invoke(msgs).value, docs, level)
      && services.invoke(msgs).value.Str?
      && WellFormedResponse(r.value)
    ensures r.Returned? ==> forall k | 0 <= k < |docs| :: IdentifiedSource(Sources(docs)[k])
  {
    match services.invoke(FormatMessages(PromptFor(level), ContextFor(level, docs), query))
    case Raised(e) => Raised(e)
    case Returned(answer) =>
      var result := ResultRecord(answer, docs, level);
      match ValidateResponse(result)
      case Raised(e) => Raised(e)
      case Returned(_) =>
        match ValidateSources(Sources(docs))
        case Raised(e) => Raised(e)
        case Returned(_) => Returned(result)
  }

  /**
   * generate_answer's steps once their outcomes are known: the query check,
   * the level check, retrieval with the sanitised question q, then the
   * fallback or the model call. The first step that raises decides.
   */
  function Pipeline(queryCheck: Outcome<bool>, levelCheck: Outcome<bool>, retrieved: Outcome<seq<Document>>,
                    services: Services, q: string, level: string): (r: Outcome<map<string, Value>>)
    ensures r.Returned? ==> queryCheck.Returned? && levelCheck.Returned? && retrieved.Returned?
    ensures r.Returned? ==> WellFormedResponse(r.value) && r.value["complexity_level"] == Str(level)
  {
    match queryCheck
    case Raised(e) => Raised(e)
    case Returned(_) =>
      match levelCheck
      case Raised(e) => Raised(e)
      case Returned(_) =>
        match retrieved
        case Raised(e) => Raised(e)
        case Returned(docs) =>
          if docs == [] then Returned(FallbackResponse(level))
          else AnswerFromDocs(services, q, level, docs)
  }

  /**
   * The body of generate_answer, before handle_llm_errors translates what it
   * raises. Retrieval is pure here, so naming its outcome up front does not
   * change which step decides.
   */
  function AnswerBody(store: Option<VectorStore>, services: Services, config: Config, query: string, level: string): Outcome<map<string, Value>>
  {
    var q := SanitizeQuery(query);
    Pipeline(ValidateQuery(query), ValidateComplexityLevel(level), Retrieve(store, services, config, q, None), services, q, level)
  }

  /** A failed check stops the pipeline with the check's own exception. */
  lemma PipelineStopsAtChecks(queryCheck: Outcome<bool>, levelCheck: Outcome<bool>, retrieved: Outcome<seq<Document>>,
                              services: Services, q: string, level: string)
    requires queryCheck.Raised? || levelCheck.Raised?
    ensures Pipeline(queryCheck, levelCheck, retrieved, services, q, level)
      == Raised(if queryCheck.Raised? then queryCheck.exc else levelCheck.exc)
  {
  }

  /** Past the checks, an empty retrieval gives the fallback and any other the model's record. */
  lemma PipelineAfterChecks(queryCheck: Outcome<bool>, levelCheck: Outcome<bool>, docs: seq<Document>,
                            services: Services, q: string, level: string)
    requires queryCheck.Returned? && levelCheck.Returned?
    ensures docs == [] ==> Pipeline(queryCheck, levelCheck, Returned(docs), services, q, level) == Returned(FallbackResponse(level))
    ensures docs != [] ==> Pipeline(queryCheck, levelCheck, Returned(docs), services, q, level) == AnswerFromDocs(services, q, level, docs)
  {
  }

  /** handle_llm_errors' default_return, which is never returned. */
  const LLMDefault: map<string, Value> := map["answer" := Str("Ошибка генерации ответа"), "sources" := List([])]

  /** generate_answer as its caller sees it. */
  function GenerateAnswerOutcome(store: Option<VectorStore>, services: Services, config: Config, query: string, level: string): (r: Outcome<map<string, Value>>)
    ensures r.Raised? ==> IsDomain(r.exc)
    ensures r.Returned? ==> WellFormedResponse(r.value) && r.value["complexity_level"] == Str(level)
  {
    HandleLLMErrors(LLMDefault, "generate_answer", AnswerBody(store, services, config, query, level))
  }

  /** handle_llm_errors around generate_answer wraps a foreign exception once. */
  lemma LLMHandlerWraps(body: Outcome<map<string, Value>>)
    requires body.Raised? && !IsDomain(body.exc)
    ensures HandleLLMErrors(LLMDefault, "generate_answer", body)
      == Raised(Exception(Domain(LLMError), WrappedMessage("generate_answer", body.exc)))
  {
  }

  /** handle_llm_errors passes a returned record through untouched. */
  lemma LLMHandlerPasses(body: Outcome<map<string, Value>>)
    requires body.Returned?
    ensures HandleLLMErrors(LLMDefault, "generate_answer", body) == body
  {
  }

  /**
   * The query and the level are checked before anything else: a rejected
   * query or level surfaces as LLMError("Ошибка в generate_answer: ...")
   * whatever the store and the model would have done.
   */
  lemma ValidationComesFirst(store: Option<VectorStore>, services: Services, config: Config, query: string, level: string)
    requires ValidateQuery(query).Raised? || ValidateComplexityLevel(level).Raised?
    ensures var e := if ValidateQuery(query).Raised? then ValidateQuery(query).exc else ValidateComplexityLevel(level).exc;
      GenerateAnswerOutcome(store, services, config, query, level)
      == Raised(Exception(Domain(LLMError), WrappedMessage("generate_answer", e)))
  {
    var q := SanitizeQuery(query);
    var queryCheck, levelCheck := ValidateQuery(query), ValidateComplexityLevel(level);
    var e := if queryCheck.Raised? then queryCheck.exc else levelCheck.exc;
    var body := Pipeline(queryCheck, levelCheck, Retrieve(store, services, config, q, None), services, q, level);
    PipelineStopsAtChecks(queryCheck, levelCheck, Retrieve(store, services, config, q, None), services, q, level);
    assert e.ty == Foreign("ValueError");
    LLMHandlerWraps(body);
  }

  /** The empty query of the integration test: LLMError with the "empty" message. */
  lemma EmptyQueryIsLLMError(store: Option<VectorStore>, services: Services, config: Config)
    ensures GenerateAnswerOutcome(store, services, config, "", "easy")
      == Raised(Exception(Domain(LLMError), WrappedMessage("generate_answer", ValueError(EmptyQueryMessage))))
  {
    var q := SanitizeQuery("");
    var queryCheck, levelCheck := ValidateQuery(""), ValidateComplexityLevel("easy");
    var body := Pipeline(queryCheck, levelCheck, Retrieve(store, services, config, q, None), services, q, "easy");
    assert queryCheck == Raised(ValueError(EmptyQueryMessage));
    PipelineStopsAtChecks(queryCheck, levelCheck, Retrieve(store, services, config, q, None), services, q, "easy");
    LLMHandlerWraps(body);
  }

  /** With no store (or no hits) a valid question gets the fixed apology, no sources and the level back. */
  lemma NoDocsFallback(store: Option<VectorStore>, services: Services, config: Config, query: string, level: string)
    requires ValidateQuery(query).Returned? && ValidateComplexityLevel(level).Returned?
    requires store.None? || Retrieve(store, services, config, SanitizeQuery(query), None) == Returned([])
    ensures var r := GenerateAnswerOutcome(store, services, config, query, level);
      && r.Returned?
      && r.value["answer"] == Str(FallbackAnswer)
      && r.value["sources"] == List([])
      && r.value["complexity_level"] == Str(level)
  {
    var q := SanitizeQuery(query);
    var queryCheck, levelCheck := ValidateQuery(query), ValidateComplexityLevel(level);
    var retrieved := Retrieve(store, services, config, q, None);
    assert retrieved == Returned([]);
    PipelineAfterChecks(queryCheck, levelCheck, [], services, q, level);
    var body := Pipeline(queryCheck, levelCheck, retrieved, services, q, level);
    LLMHandlerPasses(body);
  }

  /**
   * On success with retrieved docs: the sources are the docs' metadata in
   * retrieval order, the answer is the model's string, the level is echoed,
   * and the model was asked with the level's prompt over the level's context
   * and the sanitised question.
   */
  lemma SuccessShape(store: Option<VectorStore>, services: Services, config: Config, query: string, level: string)
    requires ValidateQuery(query).Returned? && ValidateComplexityLevel(level).Returned?
    requires Retrieve(store, services, config, SanitizeQuery(query), None).Returned?
    requires Retrieve(store, services, config, SanitizeQuery(query), None).value != []
    requires GenerateAnswerOutcome(store, services, config, query, level).Returned?
    ensures var docs := Retrieve(store, services, config, SanitizeQuery(query), None).value;
      var r := GenerateAnswerOutcome(store, services, config, query, level).value;
      var msgs := FormatMessages(PromptFor(level), ContextFor(level, docs), SanitizeQuery(query));
      && services.invoke(msgs).Returned?
      && r == ResultRecord(services.invoke(msgs).value, docs, level)
      && r["answer"].Str?
      && r["sources"] == List(Sources(docs))
      && (forall k | 0 <= k < |docs| :: IdentifiedSource(Sources(docs)[k]))
  {
    var q := SanitizeQuery(query);
    var queryCheck, levelCheck := ValidateQuery(query), ValidateComplexityLevel(level);
    var docs := Retrieve(store, services, config, q, None).value;
    PipelineAfterChecks(queryCheck, levelCheck, docs, services, q, level);
    var body := Pipeline(queryCheck, levelCheck, Returned(docs), services, q, level);
    LLMHandlerPasses(body);
  }

  // ---------------------------------------------------------------------------
  // load_documents
  // ---------------------------------------------------------------------------

  /** The web pages that become documents: those with non-empty content, in crawl order. */
  function WebDocuments(pages: seq<PageRecord>): (docs: seq<Document>)
    ensures |docs| <= |pages|
  {
    if pages == [] then []
    else
      var page := pages[|pages| - 1];
      WebDocuments(pages[..|pages| - 1])
      + (if page.content != [] then [Document(page.content, page.metadata)] else [])
  }

  /** Pages with content all become documents, one each, in order, keeping content and metadata. */
  lemma {:induction false} WebDocumentsKeepsPages(pages: seq<PageRecord>)
    requires forall k | 0 <= k < |pages| :: pages[k].content != []
    ensures |WebDocuments(pages)| == |pages|
    ensures forall k | 0 <= k < |pages| :: WebDocuments(pages)[k] == Document(pages[k].content, pages[k].metadata)
  {
    if pages != [] {
      WebDocumentsKeepsPages(pages[..|pages| - 1]);
    }
  }

  /** Every web document comes from some page, with that page's content and metadata. */
  lemma {:induction false} WebDocumentsFromPages(pages: seq<PageRecord>)
    ensures forall d | d in WebDocuments(pages) ::
      d.content != [] && exists k | 0 <= k < |pages| :: d == Document(pages[k].content, pages[k].metadata)
  {
    if pages != [] {
      var init := pages[..|pages| - 1];
      WebDocumentsFromPages(init);
      forall d | d in WebDocuments(init)
        ensures exists k | 0 <= k < |pages| :: d == Document(pages[k].content, pages[k].metadata)
      {
        var k :| 0 <= k < |init| && d == Document(init[k].content, init[k].metadata);
        assert pages[k] == init[k];
      }
    }
  }

  /** The name read at core/rag_chain.py:45 and 59 that core/config.py does not define. */
  const MissingFlagError := Exception(Foreign("AttributeError"), "type object 'Config' has no attribute 'ENABLE_WEB_CRAWLING'")

  /** Whether load_documents crawls: include_web and the flag (defined) is true. */
  predicate Crawls(config: Config, includeWeb: bool)
  {
    includeWeb && config.enableWebCrawling == Some(true)
  }

  /** File chunks first, then the web documents when crawling. */
  function Merged(config: Config, includeWeb: bool, fileChunks: seq<Document>, pages: seq<PageRecord>): seq<Document>
  {
    fileChunks + (if Crawls(config, includeWeb) then WebDocuments(pages) else [])
  }

  /**
   * What load_documents returns (or raises), given the file chunks found, the
   * crawl's pages and the store builder.
   */
  function LoadOutcome(config: Config, includeWeb: bool, fileChunks: seq<Document>, pages: seq<PageRecord>,
                       build: seq<Document> -> Outcome<VectorStore>): (r: Outcome<int>)
    ensures r.Raised? ==> IsDomain(r.exc)
    ensures r.Returned? ==> r.value == 0 || r.value == |Merged(config, includeWeb, fileChunks, pages)|
  {
    if config.enableWebCrawling.None? then HandleDocumentLoadErrors(0, "load_documents", Raised(MissingFlagError))
    else
      var all := Merged(config, includeWeb, fileChunks, pages);
      if all == [] then Returned(0)
      else
        match build(all)
        case Raised(e) => HandleDocumentLoadErrors(0, "load_documents", Raised(e))
        case Returned(_) => Returned(|all|)
  }

  /**
   * As written, with the shipped configuration, load_documents raises on every
   * call: the flag it reads does not exist, with or without include_web.
   */
  lemma ShippedLoadAlwaysRaises(includeWeb: bool, fileChunks: seq<Document>, pages: seq<PageRecord>,
                                build: seq<Document> -> Outcome<VectorStore>)
    ensures LoadOutcome(Shipped, includeWeb, fileChunks, pages, build)
      == Raised(Exception(Domain(DocumentLoadError), WrappedMessage("load_documents", MissingFlagError)))
  {
  }

  /**
   * With the flag defined, the file-only load of the chain test (one chunk,
   * include_web=False, a store that builds) returns 1.
   */
  lemma DefinedFlagLoadsFiles(flag: bool, doc: Document, build: seq<Document> -> Outcome<VectorStore>)
    requires build([doc]).Returned?
    ensures LoadOutcome(Shipped.(enableWebCrawling := Some(flag)), false, [doc], [], build) == Returned(1)
  {
    assert Merged(Shipped.(enableWebCrawling := Some(flag)), false, [doc], []) == [doc] + [];
    assert [doc] + [] == [doc];
  }

  /**
   * With the flag defined: the count is that of the merged list (file chunks
   * first, then pages with content, in crawl order) when the store builds;
   * an empty merge returns 0; a failing crawl (no pages) still loads the files.
   */
  lemma LoadOrder(config: Config, includeWeb: bool, fileChunks: seq<Document>, pages: seq<PageRecord>,
                  build: seq<Document> -> Outcome<VectorStore>)
    requires config.enableWebCrawling.Some?
    ensures var all := Merged(config, includeWeb, fileChunks, pages);
      && all[..|fileChunks|] == fileChunks
      && (Crawls(config, includeWeb) ==> all[|fileChunks|..] == WebDocuments(pages))
      && (!Crawls(config, includeWeb) ==> all == fileChunks)
      && (all == [] ==> LoadOutcome(config, includeWeb, fileChunks, pages, build) == Returned(0))
      && (all != [] && build(all).Returned? ==> LoadOutcome(config, includeWeb, fileChunks, pages, build) == Returned(|all|))
      && Merged(config, includeWeb, fileChunks, []) == fileChunks
  {
    var all := Merged(config, includeWeb, fileChunks, pages);
    assert all[..|fileChunks|] == fileChunks;
    assert WebDocuments([]) == [];
    assert fileChunks + [] == fileChunks;
  }

  // ---------------------------------------------------------------------------
  // The chain object
  // ---------------------------------------------------------------------------

  /** The directory walk result load_documents merges, or nothing when the path is missing. */
  function FileChunksFor(loader: FileLoader, dataPath: string): seq<Document>
  {
    if loader.fs.pathExists(dataPath) then
      WalkChunks(Whitelisted, FileLoadOf(loader.fs, loader.chunkSize, loader.chunkOverlap), loader.fs.walk(dataPath))
    else []
  }

  class EoraRAGChain {
    var documents: seq<Document>
    var vectorstore: Option<VectorStore>
    const config: Config
    const services: Services
    const fileLoader: FileLoader
    const webCrawler: WebCrawler

    /** EoraRAGChain.__init__: no documents, no store; the loader and the crawler use the configuration's defaults. */
    constructor (config: Config, services: Services, fs: FileSystem, net: Network)
      ensures documents == [] && vectorstore.None?
      ensures this.config == config && this.services == services
      ensures fresh(fileLoader) && fresh(webCrawler)
      ensures fileLoader.chunkSize == OrDefault(None, config.chunkSize) && fileLoader.fs == fs
      ensures fileLoader.chunkOverlap == OrDefault(None, config.chunkOverlap)
      ensures webCrawler.baseUrl == DefaultBaseUrl && webCrawler.net == net && webCrawler.visitedUrls == {}
    {
      documents := [];
      vectorstore := None;
      this.config := config;
      this.services := services;
      fileLoader := new FileLoader(None, None, config, fs);
      webCrawler := new WebCrawler(DefaultBaseUrl, net);
    }

    /**
     * load_documents: merge, then replace documents and the store wholesale
     * when the merge is non-empty and the store builds; otherwise both stay.
     * The crawler's visited set advances only when the crawl runs.
     */
    method LoadDocuments(dataPath: string, includeWeb: bool) returns (r: Outcome<int>)
      modifies this, webCrawler
      ensures var crawl := Crawl(webCrawler.net, webCrawler.baseUrl, config.crawlMaxPages,
                                 Start(webCrawler.baseUrl, old(webCrawler.visitedUrls)));
        var pages := if Crawls(config, includeWeb) then crawl.pages else [];
        var all := Merged(config, includeWeb, FileChunksFor(fileLoader, dataPath), pages);
        && r == LoadOutcome(config, includeWeb, FileChunksFor(fileLoader, dataPath), pages, services.fromDocuments)
        && webCrawler.visitedUrls == (if Crawls(config, includeWeb) then crawl.visited else old(webCrawler.visitedUrls))
        && (r.Returned? && r.value > 0 ==>
              documents == all && vectorstore == Some(services.fromDocuments(all).value))
        && (!(r.Returned? && r.value > 0) ==> documents == old(documents) && vectorstore == old(vectorstore))
    {
      var fileChunks: seq<Document> := [];
      if fileLoader.fs.pathExists(dataPath) {
        fileChunks := fileLoader.LoadDirectory(dataPath);
      }
      assert fileChunks == FileChunksFor(fileLoader, dataPath);
      var all := fileChunks;
      ghost var pages: seq<PageRecord> := [];
      if includeWeb {
        if config.enableWebCrawling.None? {
          r := HandleDocumentLoadErrors(0, "load_documents", Raised(MissingFlagError));
          return;
        }
        if config.enableWebCrawling.value {
          var crawled := webCrawler.CrawlSite(config.crawlMaxPages);
          var webData := SafeExecute(Returned(crawled), [], "парсинг веб-страниц");
          all := AppendWebDocuments(all, webData);
          pages := webData;
        }
      } else if config.enableWebCrawling.None? {
        r := HandleDocumentLoadErrors(0, "load_documents", Raised(MissingFlagError));
        return;
      }
      assert all == Merged(config, includeWeb, fileChunks, pages);
      r := BuildStore(all);
    }

    /** The tail of load_documents: build the store from a non-empty merge and keep both, or change nothing. */
    method BuildStore(all: seq<Document>) returns (r: Outcome<int>)
      modifies this
      ensures r == (if all == [] then Returned(0)
                    else match services.fromDocuments(all)
                      case Raised(e) => HandleDocumentLoadErrors(0, "load_documents", Raised(e))
                      case Returned(_) => Returned(|all|))
      ensures r.Returned? && r.value > 0 ==> documents == all && vectorstore == Some(services.fromDocuments(all).value)
      ensures !(r.Returned? && r.value > 0) ==> documents == old(documents) && vectorstore == old(vectorstore)
    {
      if all == [] {
        return Returned(0);
      }
      var store := services.fromDocuments(all);
      if store.Raised? {
        r := HandleDocumentLoadErrors(0, "load_documents", Raised(store.exc));
        return;
      }
      vectorstore := Some(store.value);
      documents := all;
      r := Returned(|all|);
    }

    /** The loop of load_documents over web_data. */
    static method AppendWebDocuments(all: seq<Document>, webData: seq<PageRecord>) returns (merged: seq<Document>)
      ensures merged == all + WebDocuments(webData)
    {
      merged := all;
      var i := 0;
      while i < |webData|
        invariant 0 <= i <= |webData|
        invariant merged == all + WebDocuments(webData[..i])
      {
        var page := webData[i];
        if page.content != [] {
          merged := merged + [Document(page.content, page.metadata)];
        }
        assert webData[..i + 1][..i] == webData[..i];
        i := i + 1;
      }
      assert webData[..i] == webData;
    }

    /** search_relevant_docs on the chain's current store. */
    function SearchRelevantDocs(query: string, k: Option<int>): (r: Outcome<seq<Document>>)
      reads this
      ensures vectorstore.None? ==> r == Returned([])
      ensures vectorstore.Some? && (k.None? || k.value == 0) ==>
        r == services.similaritySearch(vectorstore.value, query, config.searchK)
    {
      Retrieve(vectorstore, services, config, query, k)
    }

    /** generate_answer on the chain's current store. */
    function GenerateAnswer(query: string, level: string): (r: Outcome<map<string, Value>>)
      reads this
      ensures r.Raised? ==> IsDomain(r.exc)
      ensures r.Returned? ==> WellFormedResponse(r.value) && r.value["complexity_level"] == Str(level)
    {
      GenerateAnswerOutcome(vectorstore, services, config, query, level)
    }

    /** _prepare_context_with_references: one numbered block per document, joined by blank lines. */
    method PrepareContextWithReferences(docs: seq<Document>) returns (context: string)
      ensures context == ContextWithReferences(docs)
    {
      ghost var blocks := ReferenceBlocks(docs);
      var parts: seq<string> := [];
      var i := 0;
      while i < |docs|
        invariant 0 <= i <= |docs|
        invariant parts == blocks[..i]
      {
        var block := ReferenceBlock(docs[i], i + 1);
        assert block == blocks[i];
        parts := parts + [block];
        TakeOneMore(blocks, i);
        i := i + 1;
      }
      assert parts == blocks;
      context := Join("\n\n", parts);
    }
  }
}
