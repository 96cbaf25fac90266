/** The agent's tools (utils/tools.py). app2.py defines the same search
    function and tool list at module level, over its global retriever. */
module Tools {
  import opened Results
  import Text

  /** A retrieved LangChain document; only its page content is used. */
  datatype Document = Document(pageContent: string)

  /** The vector-store retriever (`retriever.invoke(query)`), an oracle:
      the top-k documents in similarity order, or the exception it raised. */
  type Retriever = string -> Result<seq<Document>>

  /** DuckDuckGo's `run`, an oracle that may raise. */
  type WebSearch = string -> Result<string>

  /** A LangChain `Tool`: a name the agent selects it by, the description
      the agent reads, and the callable it runs. */
  datatype Tool = Tool(name: string, description: string, func: string -> Result<string>)

  const NoResults := "No relevant information found in the trusted knowledge base."
  const DocSeparator := "\n---\n"
  const SearchErrorPrefix := "Error during semantic search: "

  const TrustedToolName := "search_trusted_medical_knowledge"
  const TrustedToolDescription := "ALWAYS use this tool FIRST. It semantically searches the trusted, internal medical knowledge base (source.txt) for symptoms and conditions. Use this before any web search."
  const WebToolName := "duckduckgo_search"
  const WebToolDescription := "Use this tool ONLY if 'search_trusted_medical_knowledge' does not provide a useful answer. Use it to find information from credible medical sources (like Mayo Clinic, NIH, MedlinePlus)."

  /** `[doc.page_content for doc in docs]`. */
  function PageContents(docs: seq<Document>): (ps: seq<string>)
    ensures |ps| == |docs|
    ensures forall i :: 0 <= i < |docs| ==> ps[i] == docs[i].pageContent
  {
    seq(|docs|, i requires 0 <= i < |docs| => docs[i].pageContent)
  }

  /** What the trusted search returns once the retriever has answered. */
  function FormatRetrieval(retrieved: Result<seq<Document>>): string
  {
    match retrieved
    case Err(e) => SearchErrorPrefix + e
    case Ok(docs) =>
      if |docs| == 0 then NoResults
      else Text.Join(DocSeparator, PageContents(docs))
  }

  /** `search_trusted_medical_knowledge(query)`: it asks the retriever about
      `query` itself and nothing else, and returns a string in every case
      (the retriever's exception is caught). */
  function SearchTrustedMedicalKnowledge(retriever: Retriever, query: string): string
  {
    FormatRetrieval(retriever(query))
  }

  /** The result depends on the retriever only through its answer for the
      very query it was given. */
  lemma SearchUsesQueryUnchanged(r1: Retriever, r2: Retriever, query: string)
    requires r1(query) == r2(query)
    ensures SearchTrustedMedicalKnowledge(r1, query) == SearchTrustedMedicalKnowledge(r2, query)
  {
  }

  /** An empty retrieval gives the fixed sentinel. */
  lemma EmptyRetrievalGivesSentinel(retriever: Retriever, query: string)
    requires retriever(query) == Ok([])
    ensures SearchTrustedMedicalKnowledge(retriever, query) == NoResults
  {
  }

  /** A retriever exception becomes an error string carrying its message. */
  lemma RetrieverErrorIsReported(retriever: Retriever, query: string, e: string)
    requires retriever(query) == Err(e)
    ensures SearchTrustedMedicalKnowledge(retriever, query) == SearchErrorPrefix + e
    ensures |SearchTrustedMedicalKnowledge(retriever, query)| == |SearchErrorPrefix| + |e|
  {
  }

  /** A non-empty retrieval is the page contents, in retriever order, with
      exactly |docs| - 1 separators between them: the result is the
      concatenation of [c0, sep, c1, ..., c(n-1)], its length is the
      contents' total length plus (n - 1) separator lengths. */
  lemma {:induction false} NonEmptyRetrievalIsJoined(retriever: Retriever, query: string, docs: seq<Document>, k: nat)
    requires retriever(query) == Ok(docs) && |docs| > 0
    requires k < 2 * |docs| - 1
    ensures var pieces := Text.Weave(DocSeparator, PageContents(docs));
      && SearchTrustedMedicalKnowledge(retriever, query) == Text.Concat(pieces)
      && |pieces| == 2 * |docs| - 1
      && (k % 2 == 0 ==> pieces[k] == docs[k / 2].pageContent)
      && (k % 2 == 1 ==> pieces[k] == DocSeparator)
    ensures |SearchTrustedMedicalKnowledge(retriever, query)|
      == Text.TotalLength(PageContents(docs)) + (|docs| - 1) * |DocSeparator|
  {
    Text.JoinIsConcatOfWeave(DocSeparator, PageContents(docs));
    Text.WeaveShape(DocSeparator, PageContents(docs), k);
    Text.JoinLength(DocSeparator, PageContents(docs));
  }

  /** One retrieved document yields exactly its content. */
  lemma SingleDocumentIsItsContent(retriever: Retriever, query: string, doc: Document)
    requires retriever(query) == Ok([doc])
    ensures SearchTrustedMedicalKnowledge(retriever, query) == doc.pageContent
  {
    assert PageContents([doc]) == [doc.pageContent];
  }

  /** `create_tools(retriever)`: exactly two tools, the trusted search first
      (a callable that never raises) and the web search second, under
      distinct names so that the agent's choice by name is unambiguous. */
  function CreateTools(retriever: Retriever, webSearch: WebSearch): (tools: seq<Tool>)
    ensures |tools| == 2
    ensures tools[0].name == TrustedToolName && tools[0].description == TrustedToolDescription
    ensures tools[1].name == WebToolName && tools[1].description == WebToolDescription
    ensures tools[0].name != tools[1].name
    ensures forall q :: tools[0].func(q) == Ok(SearchTrustedMedicalKnowledge(retriever, q))
    ensures forall q :: tools[1].func(q) == webSearch(q)
  {
    [ Tool(TrustedToolName, TrustedToolDescription, q => Ok(SearchTrustedMedicalKnowledge(retriever, q))),
      Tool(WebToolName, WebToolDescription, webSearch) ]
  }
}
