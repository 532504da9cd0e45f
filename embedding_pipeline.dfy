/**
 * The embedding service's pipeline for one project: the English transcripts are
 * downloaded and concatenated, the text is split into chunks, every chunk is
 * embedded, and the vectors are upserted into the project's Pinecone namespace
 * before the database records are updated.
 *
 * The database query's rows, the S3 objects of the service's bucket, the
 * sentence splitter, the tokenizer, the embedding HTTP call and the outcome of
 * making sure the Pinecone index exists are parameters; the Pinecone namespaces
 * and the two database tables the pipeline writes are the fields of
 * `EmbeddingService`.
 */
module EmbeddingPipeline {
  import opened Wrappers
  import opened Text
  import opened Chunking

  /** A row of the English-transcript query; `txtUrl` may be NULL. */
  datatype TranscriptRow = TranscriptRow(id: string, txtUrl: Option<string>, videoId: string)

  /** `f"\n\n--- Video {videoId} ---\n\n" + content + "\n\n"` */
  function Section(videoId: string, content: string): (s: string)
    ensures |s| > 2 && s[2] == '-'
  {
    "\n\n--- Video " + videoId + " ---\n\n" + content + "\n\n"
  }

  /** `txtUrl.replace(f's3://{bucket}/', '')`; a missing bucket name is formatted
      as "None". */
  function TxtKey(txtUrl: string, bucket: Option<string>): string {
    ReplaceAll(txtUrl, "s3://" + bucket.GetOr("None") + "/", "")
  }

  /** The content `_download_and_combine_transcripts` reads for a row, or None when
      reading it raises: the row has no `txtUrl`, no bucket is configured, or the
      bucket has no object under the key. */
  function Download(row: TranscriptRow, bucket: Option<string>, objects: map<string, string>): Option<string> {
    if row.txtUrl.None? || bucket.None? then None
    else
      var key := TxtKey(row.txtUrl.value, bucket);
      if key in objects then Some(objects[key]) else None
  }

  /** The combined text: a section per downloaded transcript, in row order. */
  function Combined(rows: seq<TranscriptRow>, bucket: Option<string>, objects: map<string, string>): string {
    if rows == [] then ""
    else
      var n := |rows|;
      var before := Combined(rows[..n - 1], bucket, objects);
      match Download(rows[n - 1], bucket, objects)
      case Some(content) => before + Section(rows[n - 1].videoId, content)
      case None => before
  }

  ghost predicate SomeDownloaded(rows: seq<TranscriptRow>, bucket: Option<string>, objects: map<string, string>) {
    exists k :: 0 <= k < |rows| && Download(rows[k], bucket, objects).Some?
  }

  /** `_download_and_combine_transcripts`: three writes per downloaded transcript;
      a transcript whose download raises is skipped. */
  method CombineTranscripts(rows: seq<TranscriptRow>, bucket: Option<string>, objects: map<string, string>)
    returns (combined: string)
    ensures combined == Combined(rows, bucket, objects)
  {
    combined := "";
    var i := 0;
    while i < |rows|
      invariant 0 <= i <= |rows|
      invariant combined == Combined(rows[..i], bucket, objects)
    {
      assert rows[..i + 1][..i] == rows[..i];
      var content := Download(rows[i], bucket, objects);
      if content.Some? {
        ghost var before := combined;
        combined := combined + "\n\n--- Video " + rows[i].videoId + " ---\n\n";
        combined := combined + content.value;
        combined := combined + "\n\n";
        assert combined == before + Section(rows[i].videoId, content.value);
      }
      i := i + 1;
    }
    assert rows[..i] == rows;
  }

  /** Without any downloaded transcript the combined text is empty. */
  lemma {:induction false} NothingDownloaded(rows: seq<TranscriptRow>, bucket: Option<string>,
                                             objects: map<string, string>)
    requires !SomeDownloaded(rows, bucket, objects)
    ensures Combined(rows, bucket, objects) == ""
    decreases |rows|
  {
    if rows != [] {
      var prefix := rows[..|rows| - 1];
      assert forall k :: 0 <= k < |prefix| ==> prefix[k] == rows[k];
      NothingDownloaded(prefix, bucket, objects);
      assert Download(rows[|rows| - 1], bucket, objects).None?;
    }
  }

  /** One downloaded transcript makes the combined text non-blank (its section
      header is not whitespace). */
  lemma {:induction false} DownloadedNotBlank(rows: seq<TranscriptRow>, bucket: Option<string>,
                                              objects: map<string, string>)
    requires SomeDownloaded(rows, bucket, objects)
    ensures !AllSpace(Combined(rows, bucket, objects))
    decreases |rows|
  {
    var n := |rows|;
    var prefix := rows[..n - 1];
    var before := Combined(prefix, bucket, objects);
    match Download(rows[n - 1], bucket, objects)
    case Some(content) =>
      var s := Section(rows[n - 1].videoId, content);
      assert Combined(rows, bucket, objects)[|before| + 2] == s[2];
    case None =>
      var k :| 0 <= k < n && Download(rows[k], bucket, objects).Some?;
      assert k < n - 1 && prefix[k] == rows[k];
      DownloadedNotBlank(prefix, bucket, objects);
      assert Combined(rows, bucket, objects) == before;
  }

  /** `combined_text.strip()` is empty exactly when no transcript was downloaded
      (the case the pipeline reports as "No text content found in transcripts"). */
  lemma CombinedBlankIffNothingDownloaded(rows: seq<TranscriptRow>, bucket: Option<string>,
                                          objects: map<string, string>)
    ensures Strip(Combined(rows, bucket, objects)) == "" <==> !SomeDownloaded(rows, bucket, objects)
  {
    if SomeDownloaded(rows, bucket, objects) {
      DownloadedNotBlank(rows, bucket, objects);
    } else {
      NothingDownloaded(rows, bucket, objects);
    }
  }

  /** The key is read back from a `txtUrl` in the configured bucket, unless the key
      itself contains the URL prefix. */
  lemma TxtKeyOfUrl(bucket: string, key: string)
    requires !OccursIn("s3://" + bucket + "/", key)
    ensures TxtKey("s3://" + bucket + "/" + key, Some(bucket)) == key
  {
    var prefix := "s3://" + bucket + "/";
    ReplaceAtStart(prefix, key, "");
    ReplaceAbsent(key, prefix, "");
    assert "" + key == key;
  }

  /** The embedding of one chunk from the `"embeddings"` field of the HTTP response
      (None when the call raises or the field is missing): its first element, or the
      empty list when there is none. */
  function EmbeddingOf(response: Option<seq<seq<real>>>): seq<real> {
    if response.Some? && |response.value| > 0 then response.value[0] else []
  }

  /** The embeddings `_generate_embeddings` returns: one per chunk, in order. */
  function Embeddings(chunks: seq<string>, embed: string -> Option<seq<seq<real>>>): (r: seq<seq<real>>)
    ensures |r| == |chunks|
    ensures forall i :: 0 <= i < |chunks| ==> r[i] == EmbeddingOf(embed(chunks[i]))
    ensures forall i :: 0 <= i < |chunks| && embed(chunks[i]).None? ==> r[i] == []
  {
    if chunks == [] then []
    else Embeddings(chunks[..|chunks| - 1], embed) + [EmbeddingOf(embed(chunks[|chunks| - 1]))]
  }

  /** `_generate_embeddings`: one HTTP call per chunk; a failed call, or one that
      returns no embedding, gives the empty list. */
  method GenerateEmbeddings(chunks: seq<string>, embed: string -> Option<seq<seq<real>>>)
    returns (embeddings: seq<seq<real>>)
    ensures embeddings == Embeddings(chunks, embed)
  {
    embeddings := [];
    var i := 0;
    while i < |chunks|
      invariant 0 <= i <= |chunks|
      invariant embeddings == Embeddings(chunks[..i], embed)
    {
      assert chunks[..i + 1][..i] == chunks[..i];
      var response := embed(chunks[i]);
      if response.Some? && |response.value| > 0 && response.value[0] != [] {
        embeddings := embeddings + [response.value[0]];
      } else {
        embeddings := embeddings + [[]];
      }
      i := i + 1;
    }
    assert chunks[..i] == chunks;
  }

  datatype VectorMetadata = VectorMetadata(projectId: string, chunkIndex: nat, text: string, textLength: nat)

  datatype Vector = Vector(id: string, values: seq<real>, metadata: VectorMetadata)

  /** At most this many characters of a chunk are kept as metadata. */
  const MetadataTextLimit := 1000

  /** `f"{project_id}_{i}"` */
  function VectorId(projectId: string, i: nat): string {
    projectId + "_" + DecimalString(i)
  }

  /** Distinct chunk indexes give distinct vector ids within a project. */
  lemma VectorIdsDistinct(projectId: string, i: nat, j: nat)
    ensures VectorId(projectId, i) == VectorId(projectId, j) <==> i == j
  {
    var prefix := projectId + "_";
    if VectorId(projectId, i) == VectorId(projectId, j) {
      assert DecimalString(i) == VectorId(projectId, i)[|prefix|..];
      assert DecimalString(j) == VectorId(projectId, j)[|prefix|..];
      DecimalStringInjective(i, j);
    }
  }

  /** The vector of chunk i: its id, its embedding, and metadata holding the
      first 1000 characters of the chunk and the chunk's full length. */
  function VectorFor(projectId: string, i: nat, chunk: string, embedding: seq<real>): (v: Vector)
    ensures v.id == VectorId(projectId, i) && v.values == embedding
    ensures v.metadata.projectId == projectId && v.metadata.chunkIndex == i
    ensures |v.metadata.text| == (if |chunk| <= MetadataTextLimit then |chunk| else MetadataTextLimit)
    ensures v.metadata.text == chunk[..|v.metadata.text|]
    ensures v.metadata.textLength == |chunk|
  {
    Vector(VectorId(projectId, i), embedding,
           VectorMetadata(projectId, i, Take(chunk, MetadataTextLimit), |chunk|))
  }

  function Min(a: nat, b: nat): nat {
    if a <= b then a else b
  }

  /** The vectors `_store_in_pinecone` builds from `zip(chunks, embeddings)`. */
  function Vectors(projectId: string, chunks: seq<string>, embeddings: seq<seq<real>>): (vs: seq<Vector>)
    ensures |vs| == Min(|chunks|, |embeddings|)
    ensures forall i :: 0 <= i < |vs| ==> vs[i] == VectorFor(projectId, i, chunks[i], embeddings[i])
  {
    var n := Min(|chunks|, |embeddings|);
    if n == 0 then []
    else
      Vectors(projectId, chunks[..n - 1], embeddings[..n - 1])
        + [VectorFor(projectId, n - 1, chunks[n - 1], embeddings[n - 1])]
  }

  /** The vector list of `_store_in_pinecone`, built in a loop over the pairs. */
  method BuildVectors(projectId: string, chunks: seq<string>, embeddings: seq<seq<real>>)
    returns (vectors: seq<Vector>)
    ensures vectors == Vectors(projectId, chunks, embeddings)
  {
    vectors := [];
    var n := Min(|chunks|, |embeddings|);
    var i := 0;
    while i < n
      invariant 0 <= i <= n
      invariant |vectors| == i
      invariant forall k :: 0 <= k < i ==> vectors[k] == VectorFor(projectId, k, chunks[k], embeddings[k])
    {
      vectors := vectors + [VectorFor(projectId, i, chunks[i], embeddings[i])];
      i := i + 1;
    }
    var spec := Vectors(projectId, chunks, embeddings);
    assert |spec| == |vectors|;
    assert forall k :: 0 <= k < |vectors| ==> vectors[k] == spec[k];
  }

  /** `index.upsert(vectors)`: each vector replaces any vector with its id. */
  function Upsert(namespace: map<string, Vector>, vectors: seq<Vector>): map<string, Vector> {
    if vectors == [] then namespace
    else
      var n := |vectors|;
      Upsert(namespace, vectors[..n - 1])[vectors[n - 1].id := vectors[n - 1]]
  }

  /** The upsert leaves a stored vector alone when no new vector has its id. */
  lemma {:induction false} UpsertKeepsOthers(namespace: map<string, Vector>, vectors: seq<Vector>, id: string)
    requires id in namespace
    requires forall k :: 0 <= k < |vectors| ==> vectors[k].id != id
    ensures id in Upsert(namespace, vectors) && Upsert(namespace, vectors)[id] == namespace[id]
  {
    if vectors != [] {
      UpsertKeepsOthers(namespace, vectors[..|vectors| - 1], id);
    }
  }

  /** After the upsert, every vector numbered in order for a project is stored
      under its own id. */
  lemma {:induction false} UpsertStoresEveryVector(namespace: map<string, Vector>, vs: seq<Vector>,
                                                   projectId: string)
    requires forall i :: 0 <= i < |vs| ==> vs[i].id == VectorId(projectId, i)
    ensures forall i :: 0 <= i < |vs| ==>
      VectorId(projectId, i) in Upsert(namespace, vs) && Upsert(namespace, vs)[VectorId(projectId, i)] == vs[i]
    decreases |vs|
  {
    if vs != [] {
      var n := |vs|;
      var ws := vs[..n - 1];
      UpsertStoresEveryVector(namespace, ws, projectId);
      var after := Upsert(namespace, vs);
      assert after == Upsert(namespace, ws)[vs[n - 1].id := vs[n - 1]];
      forall i | 0 <= i < n
        ensures VectorId(projectId, i) in after && after[VectorId(projectId, i)] == vs[i]
      {
        if i < n - 1 {
          VectorIdsDistinct(projectId, i, n - 1);
          assert ws[i] == vs[i];
        }
      }
    }
  }

  /** `str(e)`: an `HTTPException` reads "status: detail". */
  function FaultText(e: Fault): string {
    match e
    case Http(status, detail) => DecimalString(status) + ": " + detail
    case Raised(message) => message
  }

  /** The summary `generate_embeddings_for_project` returns on success. */
  datatype EmbeddingSummary = EmbeddingSummary(success: bool, projectId: string, transcriptsProcessed: nat,
                                               chunksCreated: nat, embeddingsGenerated: nat, textLength: nat)

  /** The `max_tokens` the pipeline asks `_split_into_chunks` for. */
  const MaxChunkTokens := 500

  /** The chunks of the combined text: `split` stands for the regular-expression
      cleaning and sentence splitting. */
  function ChunksOf(combined: string, split: string -> seq<string>, tokens: TokenCounter): seq<string> {
    JoinGroups(Pack(split(combined), tokens, MaxChunkTokens))
  }

  /** The outcomes of the calls the pipeline makes after embedding: the Pinecone
      index check (`_ensure_pinecone_index`), the upsert of the vectors (which
      Pinecone refuses, for instance, when an embedding is not of the index's
      dimension), the `Embedding` table upsert and the project status update. */
  datatype Backends = Backends(indexCheck: Result<(), Fault>, upsert: Result<(), Fault>,
                               recordWrite: Result<(), Fault>, statusWrite: Result<(), Fault>)

  /** Why `generate_embeddings_for_project` fails before anything is stored, if it
      does: no English transcripts (404), no text in them (400), the Pinecone
      index check, or the upsert itself. */
  function FailureOf(rows: seq<TranscriptRow>, bucket: Option<string>, objects: map<string, string>,
                     b: Backends): Option<Fault>
  {
    var text := TextFailure(rows, bucket, objects);
    if text.Some? then text
    else if b.indexCheck.Failure? then Some(b.indexCheck.error)
    else if b.upsert.Failure? then Some(b.upsert.error)
    else None
  }

  /** The failures before anything is stored: no English transcripts (404) or no
      text in them (400). */
  function TextFailure(rows: seq<TranscriptRow>, bucket: Option<string>, objects: map<string, string>): Option<Fault> {
    if rows == [] then Some(Http(404, "No English transcripts found for this project"))
    else if Strip(Combined(rows, bucket, objects)) == "" then Some(Http(400, "No text content found in transcripts"))
    else None
  }

  /** What the pipeline has computed when it reaches Pinecone. */
  datatype Prepared = Prepared(combined: string, chunks: seq<string>, embeddings: seq<seq<real>>)

  /** The combined text, its chunks and their embeddings. */
  function PreparedOf(rows: seq<TranscriptRow>, bucket: Option<string>, objects: map<string, string>,
                      split: string -> seq<string>, tokens: TokenCounter, embed: string -> Option<seq<seq<real>>>)
    : Prepared
  {
    var combined := Combined(rows, bucket, objects);
    var chunks := ChunksOf(combined, split, tokens);
    Prepared(combined, chunks, Embeddings(chunks, embed))
  }

  /** The steps of `generate_embeddings_for_project` before Pinecone: fetch and
      combine the transcripts, refuse blank text, chunk and embed. */
  method Prepare(rows: seq<TranscriptRow>, bucket: Option<string>, objects: map<string, string>,
                 split: string -> seq<string>, tokens: TokenCounter, embed: string -> Option<seq<seq<real>>>)
    returns (r: Result<Prepared, Fault>)
    ensures r.Failure? <==> TextFailure(rows, bucket, objects).Some?
    ensures r.Failure? ==> r.error == TextFailure(rows, bucket, objects).value
    ensures r.Success? ==> r.value == PreparedOf(rows, bucket, objects, split, tokens, embed)
  {
    if rows == [] {
      return Failure(Http(404, "No English transcripts found for this project"));
    }
    var combined := CombineTranscripts(rows, bucket, objects);
    if Strip(combined) == "" {
      return Failure(Http(400, "No text content found in transcripts"));
    }
    var chunks := SplitIntoChunks(split(combined), tokens, MaxChunkTokens);
    var embeddings := GenerateEmbeddings(chunks, embed);
    r := Success(Prepared(combined, chunks, embeddings));
  }

  /** Every failure is re-raised as `HTTPException(500, f"Failed to generate
      embeddings: {str(e)}")`, an `HTTPException` raised inside the `try`
      included. */
  function Wrapped(cause: Fault): (f: Fault)
    ensures f.Http? && f.status == 500
  {
    Http(500, "Failed to generate embeddings: " + FaultText(cause))
  }

  /** `project.update(status="COMPLETED")`, a no-op for an unknown project. */
  function MarkCompleted(status: map<string, string>, projectId: string): (after: map<string, string>)
    ensures after.Keys == status.Keys
    ensures projectId in status ==> after[projectId] == "COMPLETED"
    ensures forall p :: p in status && p != projectId ==> after[p] == status[p]
  {
    if projectId in status then status[projectId := "COMPLETED"] else status
  }

  /** The vectors of a namespace (an absent namespace is empty). */
  function NamespaceOf(namespaces: map<string, map<string, Vector>>, projectId: string): map<string, Vector> {
    if projectId in namespaces then namespaces[projectId] else map[]
  }

  /** The namespaces after `_store_in_pinecone` upserted a project's vectors. */
  function Stored(namespaces: map<string, map<string, Vector>>, projectId: string,
                  chunks: seq<string>, embeddings: seq<seq<real>>): map<string, map<string, Vector>>
  {
    namespaces[projectId := Upsert(NamespaceOf(namespaces, projectId), Vectors(projectId, chunks, embeddings))]
  }

  /** After `_store_in_pinecone` the project's namespace holds the vector of every
      chunk that has an embedding, under its own id, with its chunk index and its
      embedding. */
  lemma StoredHasChunks(namespaces: map<string, map<string, Vector>>, projectId: string,
                        chunks: seq<string>, embeddings: seq<seq<real>>)
    ensures projectId in Stored(namespaces, projectId, chunks, embeddings)
    ensures forall i :: 0 <= i < Min(|chunks|, |embeddings|) ==>
      var stored := Stored(namespaces, projectId, chunks, embeddings)[projectId];
      && VectorId(projectId, i) in stored
      && stored[VectorId(projectId, i)].metadata.chunkIndex == i
      && stored[VectorId(projectId, i)].values == embeddings[i]
  {
    var vs := Vectors(projectId, chunks, embeddings);
    UpsertStoresEveryVector(NamespaceOf(namespaces, projectId), vs, projectId);
  }

  /** What `generate_embeddings_for_project` returns, with the Pinecone
      namespaces, the `Embedding` table (project id to Pinecone namespace) and the
      project statuses it leaves behind. */
  datatype Outcome = Outcome(result: Result<EmbeddingSummary, Fault>, namespaces: map<string, map<string, Vector>>,
                             records: map<string, string>, status: map<string, string>)

  /** The specification of `generate_embeddings_for_project`: the steps run in
      order and the first failing one ends the run, so what was written before it
      stays written. */
  function Generate(projectId: string, rows: seq<TranscriptRow>, bucket: Option<string>, objects: map<string, string>,
                     split: string -> seq<string>, tokens: TokenCounter, embed: string -> Option<seq<seq<real>>>,
                     b: Backends, namespaces: map<string, map<string, Vector>>,
                     records: map<string, string>, status: map<string, string>): (o: Outcome)
    ensures o.result.Failure? ==> o.result.error.Http? && o.result.error.status == 500
  {
    var failure := FailureOf(rows, bucket, objects, b);
    if failure.Some? then Outcome(Failure(Wrapped(failure.value)), namespaces, records, status)
    else Written(projectId, |rows|, PreparedOf(rows, bucket, objects, split, tokens, embed), b, namespaces, records, status)
  }

  /** The writes after a successful upsert: the namespaces hold the vectors, then
      the `Embedding` record and the project status are written, and the first
      failing write ends the run. */
  function Written(projectId: string, transcripts: nat, p: Prepared, b: Backends,
                   namespaces: map<string, map<string, Vector>>, records: map<string, string>,
                   status: map<string, string>): (o: Outcome)
    ensures o.result.Failure? ==> o.result.error.Http? && o.result.error.status == 500
  {
    var stored := Stored(namespaces, projectId, p.chunks, p.embeddings);
    if b.recordWrite.Failure? then Outcome(Failure(Wrapped(b.recordWrite.error)), stored, records, status)
    else if b.statusWrite.Failure? then
      Outcome(Failure(Wrapped(b.statusWrite.error)), stored, records[projectId := projectId], status)
    else
      Outcome(Success(EmbeddingSummary(true, projectId, transcripts, |p.chunks|, |p.embeddings|, |p.combined|)),
              stored, records[projectId := projectId], MarkCompleted(status, projectId))
  }

  /** The pipeline fails exactly when no transcript could be downloaded or one of
      the Pinecone and database calls fails. */
  lemma GenerateFailsWhen(projectId: string, rows: seq<TranscriptRow>, bucket: Option<string>, objects: map<string, string>,
                        split: string -> seq<string>, tokens: TokenCounter, embed: string -> Option<seq<seq<real>>>,
                        b: Backends, namespaces: map<string, map<string, Vector>>,
                        records: map<string, string>, status: map<string, string>)
    ensures Generate(projectId, rows, bucket, objects, split, tokens, embed, b, namespaces, records, status).result.Failure?
            <==> || !SomeDownloaded(rows, bucket, objects)
                 || b.indexCheck.Failure? || b.upsert.Failure? || b.recordWrite.Failure? || b.statusWrite.Failure?
  {
    TextFailureWhen(rows, bucket, objects);
    if FailureOf(rows, bucket, objects, b).Some? {
      GenerateEarly(projectId, rows, bucket, objects, split, tokens, embed, b, namespaces, records, status);
    } else {
      GenerateWritten(projectId, rows, bucket, objects, split, tokens, embed, b, namespaces, records, status);
      WrittenEffect(projectId, |rows|, PreparedOf(rows, bucket, objects, split, tokens, embed), b,
                    namespaces, records, status);
    }
  }

  /** The 404 and the 400 are raised exactly when no transcript could be
      downloaded. */
  lemma TextFailureWhen(rows: seq<TranscriptRow>, bucket: Option<string>, objects: map<string, string>)
    ensures TextFailure(rows, bucket, objects).Some? <==> !SomeDownloaded(rows, bucket, objects)
  {
    CombinedBlankIffNothingDownloaded(rows, bucket, objects);
    if rows == [] {
      assert !SomeDownloaded(rows, bucket, objects);
    }
  }

  /** Every failure, the 404 for a project without English transcripts and the
      400 for blank text included, is a 500 carrying the "Failed to generate
      embeddings: " prefix, and never marks the project COMPLETED. A failure
      before the upsert succeeded changes nothing; a failed `Embedding` upsert
      leaves the vectors stored; a failed status update leaves the vectors and
      the `Embedding` record stored. */
  lemma GenerateFailure(projectId: string, rows: seq<TranscriptRow>, bucket: Option<string>, objects: map<string, string>,
                      split: string -> seq<string>, tokens: TokenCounter, embed: string -> Option<seq<seq<real>>>,
                      b: Backends, namespaces: map<string, map<string, Vector>>,
                      records: map<string, string>, status: map<string, string>)
    requires Generate(projectId, rows, bucket, objects, split, tokens, embed, b, namespaces, records, status).result.Failure?
    ensures var o := Generate(projectId, rows, bucket, objects, split, tokens, embed, b, namespaces, records, status);
      && o.result.error.Http? && o.result.error.status == 500
      && StartsWith(o.result.error.detail, "Failed to generate embeddings: ")
      && o.status == status
    ensures var o := Generate(projectId, rows, bucket, objects, split, tokens, embed, b, namespaces, records, status);
      var p := PreparedOf(rows, bucket, objects, split, tokens, embed);
      var stored := Stored(namespaces, projectId, p.chunks, p.embeddings);
      && (FailureOf(rows, bucket, objects, b).Some? ==> o.namespaces == namespaces && o.records == records)
      && (FailureOf(rows, bucket, objects, b).None? && b.recordWrite.Failure? ==>
            o.namespaces == stored && o.records == records)
      && (FailureOf(rows, bucket, objects, b).None? && b.recordWrite.Success? ==>
            o.namespaces == stored && o.records == records[projectId := projectId])
  {
    if FailureOf(rows, bucket, objects, b).None? {
      var p := PreparedOf(rows, bucket, objects, split, tokens, embed);
      GenerateWritten(projectId, rows, bucket, objects, split, tokens, embed, b, namespaces, records, status);
      WrittenEffect(projectId, |rows|, p, b, namespaces, records, status);
    }
  }

  /** On success one embedding is reported per chunk and one transcript per row,
      the `Embedding` record names the project's namespace, and the project (when
      it is known) is marked COMPLETED. */
  lemma GenerateSummary(projectId: string, rows: seq<TranscriptRow>, bucket: Option<string>, objects: map<string, string>,
                      split: string -> seq<string>, tokens: TokenCounter, embed: string -> Option<seq<seq<real>>>,
                      b: Backends, namespaces: map<string, map<string, Vector>>,
                      records: map<string, string>, status: map<string, string>)
    requires Generate(projectId, rows, bucket, objects, split, tokens, embed, b, namespaces, records, status).result.Success?
    ensures var o := Generate(projectId, rows, bucket, objects, split, tokens, embed, b, namespaces, records, status);
      var chunks := PreparedOf(rows, bucket, objects, split, tokens, embed).chunks;
      && o.result.value.chunksCreated == o.result.value.embeddingsGenerated == |chunks|
      && o.result.value.transcriptsProcessed == |rows|
      && o.records == records[projectId := projectId]
      && o.status == MarkCompleted(status, projectId)
  {
    var p := PreparedOf(rows, bucket, objects, split, tokens, embed);
    GenerateWritten(projectId, rows, bucket, objects, split, tokens, embed, b, namespaces, records, status);
    WrittenEffect(projectId, |rows|, p, b, namespaces, records, status);
  }

  /** On success every chunk's vector is stored in the project's namespace under
      its own id, with its chunk index. */
  lemma GenerateStoresChunks(projectId: string, rows: seq<TranscriptRow>, bucket: Option<string>, objects: map<string, string>,
                           split: string -> seq<string>, tokens: TokenCounter, embed: string -> Option<seq<seq<real>>>,
                           b: Backends, namespaces: map<string, map<string, Vector>>,
                           records: map<string, string>, status: map<string, string>)
    requires Generate(projectId, rows, bucket, objects, split, tokens, embed, b, namespaces, records, status).result.Success?
    ensures var o := Generate(projectId, rows, bucket, objects, split, tokens, embed, b, namespaces, records, status);
      var chunks := PreparedOf(rows, bucket, objects, split, tokens, embed).chunks;
      && projectId in o.namespaces
      && forall i :: 0 <= i < |chunks| ==>
           VectorId(projectId, i) in o.namespaces[projectId]
           && o.namespaces[projectId][VectorId(projectId, i)].metadata.chunkIndex == i
  {
    var p := PreparedOf(rows, bucket, objects, split, tokens, embed);
    GenerateStored(projectId, rows, bucket, objects, split, tokens, embed, b, namespaces, records, status);
    StoredHasChunks(namespaces, projectId, p.chunks, p.embeddings);
  }

  /** Once the upsert succeeded, the namespaces are those `_store_in_pinecone`
      leaves, whatever happens afterwards. */
  lemma GenerateStored(projectId: string, rows: seq<TranscriptRow>, bucket: Option<string>, objects: map<string, string>,
                     split: string -> seq<string>, tokens: TokenCounter, embed: string -> Option<seq<seq<real>>>,
                     b: Backends, namespaces: map<string, map<string, Vector>>,
                     records: map<string, string>, status: map<string, string>)
    requires FailureOf(rows, bucket, objects, b).None?
    ensures var p := PreparedOf(rows, bucket, objects, split, tokens, embed);
      Generate(projectId, rows, bucket, objects, split, tokens, embed, b, namespaces, records, status).namespaces == Stored(namespaces, projectId, p.chunks, p.embeddings)
  {
    var p := PreparedOf(rows, bucket, objects, split, tokens, embed);
    GenerateWritten(projectId, rows, bucket, objects, split, tokens, embed, b, namespaces, records, status);
    WrittenEffect(projectId, |rows|, p, b, namespaces, records, status);
  }

  /** The writes after the upsert store the vectors whatever happens next; the
      `Embedding` record is written unless its upsert fails, and the status only
      when both writes succeed, which is the one successful outcome. */
  lemma WrittenEffect(projectId: string, transcripts: nat, p: Prepared, b: Backends,
                      namespaces: map<string, map<string, Vector>>, records: map<string, string>,
                      status: map<string, string>)
    ensures var o := Written(projectId, transcripts, p, b, namespaces, records, status);
      && o.namespaces == Stored(namespaces, projectId, p.chunks, p.embeddings)
      && o.records == (if b.recordWrite.Failure? then records else records[projectId := projectId])
      && (o.result.Success? <==> b.recordWrite.Success? && b.statusWrite.Success?)
      && o.status == (if o.result.Success? then MarkCompleted(status, projectId) else status)
      && (o.result.Success? ==>
            o.result.value == EmbeddingSummary(true, projectId, transcripts, |p.chunks|, |p.embeddings|,
                                               |p.combined|))
  {
  }

  /** A failure before the upsert succeeded is reported, wrapped, and changes nothing. */
  lemma GenerateEarly(projectId: string, rows: seq<TranscriptRow>, bucket: Option<string>, objects: map<string, string>,
                      split: string -> seq<string>, tokens: TokenCounter, embed: string -> Option<seq<seq<real>>>,
                      b: Backends, namespaces: map<string, map<string, Vector>>,
                      records: map<string, string>, status: map<string, string>)
    requires FailureOf(rows, bucket, objects, b).Some?
    ensures Generate(projectId, rows, bucket, objects, split, tokens, embed, b, namespaces, records, status)
            == Outcome(Failure(Wrapped(FailureOf(rows, bucket, objects, b).value)), namespaces, records, status)
  {
  }

  /** Once the upsert succeeded, the outcome is that of the writes after it. */
  lemma GenerateWritten(projectId: string, rows: seq<TranscriptRow>, bucket: Option<string>, objects: map<string, string>,
                        split: string -> seq<string>, tokens: TokenCounter, embed: string -> Option<seq<seq<real>>>,
                        b: Backends, namespaces: map<string, map<string, Vector>>,
                        records: map<string, string>, status: map<string, string>)
    requires FailureOf(rows, bucket, objects, b).None?
    ensures Generate(projectId, rows, bucket, objects, split, tokens, embed, b, namespaces, records, status)
            == Written(projectId, |rows|, PreparedOf(rows, bucket, objects, split, tokens, embed), b,
                       namespaces, records, status)
  {
  }

  /** The Pinecone namespaces, the `Embedding` table (project id to Pinecone
      namespace) and the project statuses the pipeline writes. */
  class EmbeddingService {
    /** `os.getenv('AWS_S3_BUCKET')` */
    const bucket: Option<string>
    var namespaces: map<string, map<string, Vector>>
    var embeddingRecords: map<string, string>
    var projectStatus: map<string, string>

    constructor (env: Option<string>, namespaces0: map<string, map<string, Vector>>,
                 records0: map<string, string>, status0: map<string, string>)
      ensures bucket == env && namespaces == namespaces0
      ensures embeddingRecords == records0 && projectStatus == status0
    {
      bucket := env;
      namespaces := namespaces0;
      embeddingRecords := records0;
      projectStatus := status0;
    }

    /** `_store_in_pinecone`: after the index check succeeds, the vectors are
        upserted into the project's namespace; a failing index check or upsert
        raises and stores nothing. */
    method StoreInPinecone(projectId: string, chunks: seq<string>, embeddings: seq<seq<real>>, b: Backends)
      returns (r: Result<(), Fault>)
      modifies this`namespaces
      ensures r.Failure? <==> b.indexCheck.Failure? || b.upsert.Failure?
      ensures r.Failure? ==> r.error == (if b.indexCheck.Failure? then b.indexCheck.error else b.upsert.error)
      ensures r.Failure? ==> namespaces == old(namespaces)
      ensures r.Success? ==> namespaces == Stored(old(namespaces), projectId, chunks, embeddings)
    {
      if b.indexCheck.Failure? {
        return b.indexCheck;
      }
      var vectors := BuildVectors(projectId, chunks, embeddings);
      if b.upsert.Failure? {
        return b.upsert;
      }
      namespaces := namespaces[projectId := Upsert(NamespaceOf(namespaces, projectId), vectors)];
      r := Success(());
    }

    /** `_upsert_embedding_record`: the `Embedding` row of the project names its
        Pinecone namespace, the project id itself (inserted, or updated on a
        conflict); a failing statement re-raises and changes nothing. */
    method UpsertEmbeddingRecord(projectId: string, outcome: Result<(), Fault>) returns (r: Result<(), Fault>)
      modifies this`embeddingRecords
      ensures r == outcome
      ensures r.Failure? ==> embeddingRecords == old(embeddingRecords)
      ensures r.Success? ==> embeddingRecords == old(embeddingRecords)[projectId := projectId]
    {
      if outcome.Failure? {
        return outcome;
      }
      embeddingRecords := embeddingRecords[projectId := projectId];
      r := outcome;
    }

    /** `_update_project_status`: the project becomes COMPLETED (an `UPDATE` of no
        row when it is unknown); a failing statement re-raises and changes nothing. */
    method UpdateProjectStatus(projectId: string, outcome: Result<(), Fault>) returns (r: Result<(), Fault>)
      modifies this`projectStatus
      ensures r == outcome
      ensures r.Failure? ==> projectStatus == old(projectStatus)
      ensures r.Success? ==> projectStatus == MarkCompleted(old(projectStatus), projectId)
    {
      if outcome.Failure? {
        return outcome;
      }
      projectStatus := MarkCompleted(projectStatus, projectId);
      r := outcome;
    }

    /** `generate_embeddings_for_project`, as specified by `Generate`. */
    method GenerateEmbeddingsForProject(projectId: string, rows: seq<TranscriptRow>, objects: map<string, string>,
                                        split: string -> seq<string>, tokens: TokenCounter,
                                        embed: string -> Option<seq<seq<real>>>, b: Backends)
      returns (r: Result<EmbeddingSummary, Fault>)
      modifies this`namespaces, this`embeddingRecords, this`projectStatus
      ensures Outcome(r, namespaces, embeddingRecords, projectStatus)
              == Generate(projectId, rows, bucket, objects, split, tokens, embed, b,
                          old(namespaces), old(embeddingRecords), old(projectStatus))
    {
      ghost var ns0, rec0, st0 := namespaces, embeddingRecords, projectStatus;
      var prepared := Prepare(rows, bucket, objects, split, tokens, embed);
      if prepared.Failure? {
        GenerateEarly(projectId, rows, bucket, objects, split, tokens, embed, b, ns0, rec0, st0);
        return Failure(Wrapped(prepared.error));
      }
      var p := prepared.value;
      var stored := StoreInPinecone(projectId, p.chunks, p.embeddings, b);
      if stored.Failure? {
        GenerateEarly(projectId, rows, bucket, objects, split, tokens, embed, b, ns0, rec0, st0);
        return Failure(Wrapped(stored.error));
      }
      GenerateWritten(projectId, rows, bucket, objects, split, tokens, embed, b, ns0, rec0, st0);
      r := RecordCompletion(projectId, |rows|, p, b, ns0);
    }

    /** The bookkeeping after the vectors are stored: the embedding record, then
        the project's status, each of which may fail and end the run. */
    method RecordCompletion(projectId: string, transcripts: nat, p: Prepared, b: Backends,
                            ghost namespaces0: map<string, map<string, Vector>>)
      returns (r: Result<EmbeddingSummary, Fault>)
      requires namespaces == Stored(namespaces0, projectId, p.chunks, p.embeddings)
      modifies this`embeddingRecords, this`projectStatus
      ensures Outcome(r, namespaces, embeddingRecords, projectStatus)
              == Written(projectId, transcripts, p, b, namespaces0, old(embeddingRecords), old(projectStatus))
    {
      WrittenEffect(projectId, transcripts, p, b, namespaces0, embeddingRecords, projectStatus);
      var recorded := UpsertEmbeddingRecord(projectId, b.recordWrite);
      if recorded.Failure? {
        return Failure(Wrapped(recorded.error));
      }
      var updated := UpdateProjectStatus(projectId, b.statusWrite);
      if updated.Failure? {
        return Failure(Wrapped(updated.error));
      }
      r := Success(EmbeddingSummary(true, projectId, transcripts, |p.chunks|, |p.embeddings|, |p.combined|));
    }
  }
}
