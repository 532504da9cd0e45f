/**
 * The retrieval side of the intelligence service: the "does this project have
 * embeddings" decision over Pinecone's index statistics, the per-project cache of
 * retrieval chains, the formatting of the source documents a chain answers with,
 * and the one stateable branch of the query embedding (blank text).
 *
 * Pinecone's `describe_index_stats()` is an input (None when it raises); the
 * LangChain chain, the retriever and the language model are the parameter `run`.
 */
module Retrieval {
  import opened Wrappers
  import opened Text
  import opened EmbeddingPipeline

  /** A namespace entry of the index statistics; `vector_count` may be missing. */
  datatype NamespaceStats = NamespaceStats(vectorCount: Option<int>)

  /** `describe_index_stats()`; the `namespaces` entry may be missing. */
  datatype IndexStats = IndexStats(namespaces: Option<map<string, NamespaceStats>>)

  /** `check_project_embeddings`: the project's namespace (the project id itself)
      is listed and its vector count, 0 when missing, is positive; an exception
      from Pinecone (stats None) counts as no embeddings. Statistics that pass this
      check always let `create_retrieval_chain` build a chain; the converse fails
      for a listed namespace whose count is zero. */
  predicate HasEmbeddings(stats: Option<IndexStats>, projectId: string): (r: bool)
    ensures r ==> CreateRetrievalChain(stats, projectId).Success?
  {
    && stats.Some?
    && stats.value.namespaces.Some?
    && projectId in stats.value.namespaces.value
    && stats.value.namespaces.value[projectId].vectorCount.GetOr(0) > 0
  }

  /** One exchange the conversation memory keeps: the question and the answer. */
  datatype Exchange = Exchange(question: string, answer: Option<string>)

  /** A chain `create_retrieval_chain` builds: a similarity retriever over a
      namespace returning the top `topK` documents, and a conversation memory that
      keeps every exchange and shows the prompt the last `memoryWindow` of them. */
  datatype Chain = Chain(namespace: string, topK: nat, memoryWindow: nat, history: seq<Exchange>)

  const RetrieverTopK := 5
  const MemoryWindow := 5

  /** The chain built for a project, with an empty memory. */
  function ChainFor(projectId: string): Chain {
    Chain(projectId, RetrieverTopK, MemoryWindow, [])
  }

  /** The chain has the configuration `create_retrieval_chain` gives a project's
      chain, whatever its memory holds. */
  predicate Configured(c: Chain, projectId: string) {
    c.namespace == projectId && c.topK == RetrieverTopK && c.memoryWindow == MemoryWindow
  }

  /** `ConversationBufferWindowMemory(k=5)`: the `chat_history` the prompt is
      given, the newest `memoryWindow` exchanges in order. */
  function Recalled(c: Chain): (r: seq<Exchange>)
    ensures |r| == if |c.history| <= c.memoryWindow then |c.history| else c.memoryWindow
    ensures r == c.history[|c.history| - |r|..]
  {
    if |c.history| <= c.memoryWindow then c.history else c.history[|c.history| - c.memoryWindow..]
  }

  /** The chain after it answered a question: its memory keeps the exchange. */
  function Remember(c: Chain, question: string, output: ChainOutput): (r: Chain)
    ensures Configured(c, c.namespace) ==> Configured(r, c.namespace)
    ensures r.history == c.history + [Exchange(question, output.answer)]
  {
    c.(history := c.history + [Exchange(question, output.answer)])
  }

  /** The next question to a chain is asked with the last exchange in its memory,
      after at most four earlier ones. */
  lemma RecalledAfterAnswer(c: Chain, question: string, output: ChainOutput)
    requires Configured(c, c.namespace)
    ensures var r := Recalled(Remember(c, question, output));
      && 1 <= |r| <= MemoryWindow
      && r[|r| - 1] == Exchange(question, output.answer)
      && r[..|r| - 1] == Recalled(c)[|Recalled(c)| + 1 - |r|..]
  {
    var h := c.history + [Exchange(question, output.answer)];
    var r := Recalled(Remember(c, question, output));
    assert r == h[|h| - |r|..];
    assert r[..|r| - 1] == c.history[|c.history| - (|r| - 1)..];
  }

  /** `create_retrieval_chain`: raises ValueError when the namespace is not listed
      and KeyError when its entry has no `vector_count` (the count is logged). */
  function CreateRetrievalChain(stats: Option<IndexStats>, projectId: string): (r: Result<Chain, Fault>)
    ensures r.Success? <==>
      && stats.Some? && stats.value.namespaces.Some?
      && projectId in stats.value.namespaces.value
      && stats.value.namespaces.value[projectId].vectorCount.Some?
    ensures r.Success? ==> r.value == ChainFor(projectId) && Configured(r.value, projectId)
  {
    if stats.None? then Failure(Raised("describe_index_stats failed"))
    else if stats.value.namespaces.None? || projectId !in stats.value.namespaces.value then
      Failure(Raised("Namespace '" + projectId + "' not found in Pinecone"))
    else if stats.value.namespaces.value[projectId].vectorCount.None? then
      Failure(Raised("'vector_count'"))
    else Success(ChainFor(projectId))
  }

  /** The statistics of the Pinecone namespaces the embedding service writes. */
  function StatsOf(namespaces: map<string, map<string, Vector>>): IndexStats {
    IndexStats(Some(map ns | ns in namespaces :: NamespaceStats(Some(|namespaces[ns]|))))
  }

  /** Once the embedding service has stored at least one chunk for a project,
      the intelligence service sees that project as having embeddings. */
  lemma StoredChunksAreSeen(namespaces: map<string, map<string, Vector>>, projectId: string,
                            chunks: seq<string>, embeddings: seq<seq<real>>)
    requires |chunks| > 0 && |embeddings| > 0
    ensures HasEmbeddings(Some(StatsOf(Stored(namespaces, projectId, chunks, embeddings))), projectId)
  {
    StoredHasChunks(namespaces, projectId, chunks, embeddings);
    var stored := Stored(namespaces, projectId, chunks, embeddings)[projectId];
    assert VectorId(projectId, 0) in stored;
    assert |stored| > 0 by {
      assert stored.Keys != {};
    }
  }

  /** The value of a metadata entry of a retrieved document. */
  datatype MetaValue = MText(text: string) | MInt(number: int) | MOther

  datatype Document = Document(pageContent: string, metadata: map<string, MetaValue>)

  /** One formatted source of a chat answer. */
  datatype Source = Source(content: string, videoId: MetaValue, chunkIndex: MetaValue, timestamp: MetaValue)

  /** Snippets keep this many characters of the page content. */
  const SnippetLength := 200

  /** `page_content[:200] + ("..." if len(page_content) > 200 else "")` */
  function Snippet(text: string): (s: string)
    ensures |text| <= SnippetLength ==> s == text
    ensures |text| > SnippetLength ==> s == text[..SnippetLength] + "..."
  {
    Take(text, SnippetLength) + (if |text| > SnippetLength then "..." else "")
  }

  /** The snippet is at most 203 characters and starts with the text's first
      min(200, len) characters; a longer text ends in "..." after 200 characters,
      so the snippet equals the text exactly when the text is short or is itself
      200 characters followed by "...". */
  lemma SnippetShape(text: string)
    ensures |Snippet(text)| <= SnippetLength + 3
    ensures var n := if |text| <= SnippetLength then |text| else SnippetLength;
      Snippet(text)[..n] == text[..n]
    ensures |text| > SnippetLength ==> Snippet(text)[SnippetLength..] == "..."
    ensures Snippet(text) == text <==>
      |text| <= SnippetLength || (|text| == SnippetLength + 3 && text[SnippetLength..] == "...")
  {
    if |text| > SnippetLength {
      var s := Snippet(text);
      assert |s| == SnippetLength + 3;
      if |text| == SnippetLength + 3 && text[SnippetLength..] == "..." {
        assert text == text[..SnippetLength] + text[SnippetLength..];
      }
    }
  }

  /** `metadata.get(key, default)` */
  function Lookup(metadata: map<string, MetaValue>, key: string, default: MetaValue): MetaValue {
    if key in metadata then metadata[key] else default
  }

  /** One entry of `sources`: the snippet, and `video_id`, `chunk_index` and
      `timestamp` from the metadata, defaulting to "unknown", 0 and "unknown". */
  function FormatSource(doc: Document): (s: Source)
    ensures s.content == Snippet(doc.pageContent)
    ensures s.videoId == if "video_id" in doc.metadata then doc.metadata["video_id"] else MText("unknown")
    ensures s.chunkIndex == if "chunk_index" in doc.metadata then doc.metadata["chunk_index"] else MInt(0)
    ensures s.timestamp == if "timestamp" in doc.metadata then doc.metadata["timestamp"] else MText("unknown")
  {
    Source(Snippet(doc.pageContent),
           Lookup(doc.metadata, "video_id", MText("unknown")),
           Lookup(doc.metadata, "chunk_index", MInt(0)),
           Lookup(doc.metadata, "timestamp", MText("unknown")))
  }

  /** The `sources` list: one formatted source per source document, in order. */
  function FormatSources(docs: seq<Document>): (sources: seq<Source>)
    ensures |sources| == |docs|
    ensures forall i :: 0 <= i < |docs| ==> sources[i] == FormatSource(docs[i])
  {
    if docs == [] then [] else FormatSources(docs[..|docs| - 1]) + [FormatSource(docs[|docs| - 1])]
  }

  /** The metadata the embedding service stores with a vector, as the retriever
      returns it. */
  function StoredMetadata(m: VectorMetadata): map<string, MetaValue> {
    map["project_id" := MText(m.projectId), "chunk_index" := MInt(m.chunkIndex),
        "text" := MText(m.text), "text_length" := MInt(m.textLength)]
  }

  /** A document retrieved from a vector the embedding service stored carries its
      chunk index, but its video id and timestamp always read "unknown": the
      embedding service stores neither. */
  lemma StoredVectorSource(projectId: string, i: nat, chunk: string, embedding: seq<real>, pageContent: string)
    ensures var v := VectorFor(projectId, i, chunk, embedding);
      var s := FormatSource(Document(pageContent, StoredMetadata(v.metadata)));
      s.videoId == MText("unknown") && s.timestamp == MText("unknown") && s.chunkIndex == MInt(i)
  {
  }

  /** The dimension of the query embeddings. */
  const EmbeddingDimension := 384

  /** `embed_query`: a blank text embeds as 384 zeros; any other text is given to
      the model. */
  function EmbedQuery(text: string, model: string -> seq<real>): (e: seq<real>)
    ensures AllSpace(text) ==> |e| == EmbeddingDimension && forall k :: 0 <= k < |e| ==> e[k] == 0.0
    ensures !AllSpace(text) ==> e == model(text)
  {
    if Strip(text) == "" then seq(EmbeddingDimension, _ => 0.0) else model(text)
  }

  /** What running the chain on a question returns: `answer` and
      `source_documents`, each possibly missing. */
  datatype ChainOutput = ChainOutput(answer: Option<string>, sourceDocuments: Option<seq<Document>>)

  /** The `response` of a chat reply: one of the fixed texts, the chain's answer,
      or the apology carrying an exception's message. */
  datatype ReplyText = NoContent | NoAnswer | Answered(answer: string) | Apology(error: string)

  const ErrorReplyPrefix := "I'm sorry, I encountered an error processing your message: "

  /** The text sent for a reply. */
  function ResponseText(t: ReplyText): string {
    match t
    case NoContent =>
      "I don't have any processed content for this project yet. Please make sure your videos have been processed and embeddings have been generated."
    case NoAnswer => "I'm sorry, I couldn't generate a response."
    case Answered(answer) => answer
    case Apology(error) => ErrorReplyPrefix + error
  }

  /** An apology is the fixed prefix followed by the exception's message, which can
      be read back from it. */
  lemma ApologyText(error: string)
    ensures var s := ResponseText(Apology(error));
      StartsWith(s, ErrorReplyPrefix) && s[|ErrorReplyPrefix|..] == error
  {
  }

  /** The dictionary `process_chat_message` returns. */
  datatype ChatResult = ChatResult(response: ReplyText, sources: seq<Source>, success: bool)

  /** Running a chain on a question: the retriever test and the chain call, with
      the chain's memory, give the chain's output or an exception's message. */
  type Runner = (Chain, string) -> Result<ChainOutput, string>

  /** The index statistics one message's processing reads: once in
      `check_project_embeddings` and once more in `create_retrieval_chain` when
      the chain is not cached yet. */
  datatype Snapshots = Snapshots(check: Option<IndexStats>, build: Option<IndexStats>)

  /** Every cached chain has the configuration of its project's chain. */
  ghost predicate ConfiguredChains(chains: map<string, Chain>) {
    forall p :: p in chains ==> Configured(chains[p], p)
  }

  /** `get_or_create_chain`: the cached chain, or the chain built from the
      statistics read then. */
  function Obtained(chains: map<string, Chain>, projectId: string, build: Option<IndexStats>)
    : Result<Chain, Fault>
  {
    if projectId in chains then Success(chains[projectId]) else CreateRetrievalChain(build, projectId)
  }

  /** The reply to a message and the cached chains after it. */
  datatype Turn = Turn(result: ChatResult, chains: map<string, Chain>)

  /** `process_chat_message`: without embeddings, the fixed reply and no sources;
      otherwise the project's chain, taken from the cache or built and cached,
      answers and remembers the exchange; a missing answer reads as an apology,
      and an exception (from building the chain or from running it) becomes an
      unsuccessful reply carrying its message and no sources. */
  function Respond(chains: map<string, Chain>, projectId: string, message: string, snapshots: Snapshots,
                   run: Runner)
    : (t: Turn)
    ensures !HasEmbeddings(snapshots.check, projectId) ==> t == Turn(ChatResult(NoContent, [], true), chains)
    ensures t.result.success <==>
      || !HasEmbeddings(snapshots.check, projectId)
      || (Obtained(chains, projectId, snapshots.build).Success?
          && run(Obtained(chains, projectId, snapshots.build).value, message).Success?)
    ensures !t.result.success ==> t.result.response.Apology? && t.result.sources == []
    ensures HasEmbeddings(snapshots.check, projectId) && t.result.success ==>
      var chain := Obtained(chains, projectId, snapshots.build).value;
      var output := run(chain, message).value;
      && t.result.sources == FormatSources(output.sourceDocuments.GetOr([]))
      && t.result.response == (if output.answer.Some? then Answered(output.answer.value) else NoAnswer)
      && t.chains == chains[projectId := Remember(chain, message, output)]
    ensures HasEmbeddings(snapshots.check, projectId) && Obtained(chains, projectId, snapshots.build).Failure? ==>
      && t.result.response == Apology(FaultText(Obtained(chains, projectId, snapshots.build).error))
      && t.chains == chains
    ensures HasEmbeddings(snapshots.check, projectId) && Obtained(chains, projectId, snapshots.build).Success?
            && run(Obtained(chains, projectId, snapshots.build).value, message).Failure? ==>
      var chain := Obtained(chains, projectId, snapshots.build).value;
      && t.result.response == Apology(run(chain, message).error)
      && t.chains == chains[projectId := chain]
    ensures t.chains.Keys == chains.Keys || t.chains.Keys == chains.Keys + {projectId}
    ensures forall p :: p in chains && p != projectId ==> t.chains[p] == chains[p]
    ensures ConfiguredChains(chains) ==> ConfiguredChains(t.chains)
  {
    if !HasEmbeddings(snapshots.check, projectId) then Turn(ChatResult(NoContent, [], true), chains)
    else
      var obtained := Obtained(chains, projectId, snapshots.build);
      if obtained.Failure? then Turn(ChatResult(Apology(FaultText(obtained.error)), [], false), chains)
      else
        var chain := obtained.value;
        var output := run(chain, message);
        if output.Failure? then Turn(ChatResult(Apology(output.error), [], false), chains[projectId := chain])
        else
          var text := if output.value.answer.Some? then Answered(output.value.answer.value) else NoAnswer;
          Turn(ChatResult(text, FormatSources(output.value.sourceDocuments.GetOr([])), true),
               chains[projectId := Remember(chain, message, output.value)])
  }

  /** When the embeddings check passes on the same statistics the chain is built
      from, building cannot fail: a failure then comes from running the chain. */
  lemma SameReadsBuild(chains: map<string, Chain>, projectId: string, stats: Option<IndexStats>)
    requires HasEmbeddings(stats, projectId)
    ensures Obtained(chains, projectId, stats).Success?
  {
  }

  /** A second message to a project whose first was answered is run on the chain
      that remembers the first exchange, whatever the statistics read for it. */
  lemma FollowUpRemembers(chains: map<string, Chain>, projectId: string, first: string, second: string,
                          snapshots1: Snapshots, snapshots2: Snapshots, run: Runner)
    requires HasEmbeddings(snapshots1.check, projectId) && Respond(chains, projectId, first, snapshots1, run).result.success
    ensures var t := Respond(chains, projectId, first, snapshots1, run);
      var chain := Obtained(t.chains, projectId, snapshots2.build).value;
      && Obtained(t.chains, projectId, snapshots2.build).Success?
      && chain.history != []
      && chain.history[|chain.history| - 1].question == first
  {
  }

  /** The per-project retrieval chains of the intelligence service. */
  class ChainCache {
    var projectChains: map<string, Chain>

    /** Every cached chain has the configuration of its project's chain. */
    ghost predicate Valid()
      reads this
    {
      ConfiguredChains(projectChains)
    }

    constructor ()
      ensures projectChains == map[] && Valid()
    {
      projectChains := map[];
    }

    /** `get_or_create_chain`: a cached chain is returned as is, without building
        one; otherwise the chain is built and cached, or the error propagates and
        nothing is cached. */
    method GetOrCreateChain(projectId: string, build: Option<IndexStats>) returns (r: Result<Chain, Fault>)
      requires Valid()
      modifies this
      ensures Valid()
      ensures r == Obtained(old(projectChains), projectId, build)
      ensures r.Success? ==> projectChains == old(projectChains)[projectId := r.value]
      ensures r.Failure? ==> projectChains == old(projectChains)
    {
      if projectId !in projectChains {
        var created := CreateRetrievalChain(build, projectId);
        if created.Failure? {
          return created;
        }
        projectChains := projectChains[projectId := created.value];
      }
      r := Success(projectChains[projectId]);
    }

    /** `process_chat_message`, as specified by `Respond`. */
    method ProcessChatMessage(projectId: string, message: string, snapshots: Snapshots, run: Runner)
      returns (result: ChatResult)
      requires Valid()
      modifies this
      ensures Valid()
      ensures Turn(result, projectChains) == Respond(old(projectChains), projectId, message, snapshots, run)
    {
      if !HasEmbeddings(snapshots.check, projectId) {
        return ChatResult(NoContent, [], true);
      }
      var chain := GetOrCreateChain(projectId, snapshots.build);
      if chain.Failure? {
        return ChatResult(Apology(FaultText(chain.error)), [], false);
      }
      var output := run(chain.value, message);
      if output.Failure? {
        return ChatResult(Apology(output.error), [], false);
      }
      projectChains := projectChains[projectId := Remember(chain.value, message, output.value)];
      var text := if output.value.answer.Some? then Answered(output.value.answer.value) else NoAnswer;
      var docs := output.value.sourceDocuments.GetOr([]);
      result := ChatResult(text, FormatSources(docs), true);
    }
  }
}
