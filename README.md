# VideoCopilot services: a Dafny model of their core logic

VideoCopilot turns uploaded videos into searchable, chat-able projects. Three
Python services do the work, and this project models the logic inside each of
them that can be stated, and proves what it promises:

- **video-processing service** (`video-processing-service/main.py`):
  - parses the S3 location of an uploaded video;
  - runs Whisper per requested language;
  - serialises the result as SubRip cues, with `format_timestamp` for the clock and GoogleTranslator for the text;
  - uploads one `.srt` object per language and records a transcript row; the upload and the insert can each fail, and the insert fails for a video without a row;
  - moves the video through PENDING / PROCESSING / DONE, and marks the project COMPLETED once all of its videos are DONE.
- **embedding service** (`embedding-service/main.py`):
  - concatenates a project's English transcripts into one text;
  - packs its sentences greedily into chunks: a chunk's summed per-sentence token counts stay within 500, except that a single sentence over 500 tokens forms a chunk of its own;
  - embeds every chunk, builds one vector record per chunk, and upserts the records into the project's Pinecone namespace;
  - records the namespace in the `Embedding` table and marks the project COMPLETED; each of these writes can fail and leaves the earlier ones in place;
  - reports every failure as HTTP 500.
- **intelligence service** (`intelligence-service/main.py`):
  - keeps the open websocket connections, each with a chat history bounded to 20 entries;
  - decides from Pinecone's index statistics whether a project has embeddings, reading them afresh for every session and every message;
  - caches one retrieval chain per project, shared by all sessions, whose conversation memory shows the prompt the last 5 exchanges;
  - formats the source documents of an answer;
  - runs the websocket receive loop, which skips blank messages and answers every other question exactly once.

## Layout

| file | module | models |
|---|---|---|
| `wrappers.dfy` | `Wrappers` | `Option`, `Result`, and `Fault`: an `HTTPException(status, detail)` or any other exception's message |
| `text.dfy` | `Text` | Python's `str.strip()`, `s[:n]`, `str(n)`, `f"{n:0Wd}"`, `sep.join`, `str.replace`, `str.split(c, 1)` |
| `chat_sessions.dfy` | `ChatSessions` | `ConnectionManager` (a class over two maps), the connection id, and the websocket endpoint and its receive loop |
| `retrieval.dfy` | `Retrieval` | `check_project_embeddings`, `create_retrieval_chain` and the chain's memory, the chain cache, source formatting, `embed_query` on blank text, `process_chat_message` |
| `chunking.dfy` | `Chunking` | `_split_into_chunks` as a loop, proved equal to a unique greedy partition |
| `embedding_pipeline.dfy` | `EmbeddingPipeline` | transcript combining, `_generate_embeddings`, the vector records, the upsert, the two table writes, and `generate_embeddings_for_project` with its error wrapping |
| `timestamps.dfy` | `Timestamps` | `format_timestamp` over exact reals, and reading a timestamp back |
| `subtitles.dfy` | `Subtitles` | `generate_srt_with_translation` as a loop, proved equal to its cue list |
| `video_processing.dfy` | `VideoProcessing` | the S3 URL parse, object names, and `process_video`, `process_transcript`, `process_video_background` and `check_and_update_project_status` over a store class |

State the source changes in place is modelled as a Dafny class:

- `ConnectionManager`;
- the chain cache;
- the embedding service's namespaces and tables;
- the video store.

Each state-changing method is proved against a specification function of its inputs and old state:

- `Generate` for the embedding pipeline;
- `Background` and `MarkedDone` for the video store;
- `Respond` for a chat message;
- `Loop` and `SessionReplies` for the websocket;
- `Pack` for chunking;
- `SrtDocument` for subtitles.

The lemmas then state what the source promises about those functions.

What the external calls compute is a parameter of the model:

- Whisper and ffmpeg: `transcribe`;
- GoogleTranslator: `translate`;
- the Ollama embedding call: `embed`;
- the tokenizer: `tokens`;
- the regex sentence splitter: `split`;
- the LangChain chain, its retriever test and the LLM: `run`.

Whether the remaining calls succeed is an input of the model:

- `Backends`: the Pinecone index check, the Pinecone upsert, the `Embedding` upsert and the project status update;
- `Persister`: the S3 upload of a SubRip document and the insert of its transcript row;
- `Snapshots`: Pinecone's index statistics as read by each check (None when the call raises);
- `StartCalls`: the Prisma `project.find_unique` and the PROCESSING `video.update` of `process_video`;
- `StatusCalls`: the Prisma calls of the background task after its language loop: the DONE `video.update`, `video.find_many`, the `project.update` and the PENDING `video.update` of the error handler;
- the database rows and S3 objects: plain inputs.

The model makes the following choices about the database:

- A Prisma call either goes through or raises, and which one is an input (`StartCalls`, `StatusCalls`). An `update` that goes through on a missing row changes nothing (`WithStatus`); Prisma's "record not found" is one way for the outcome to be a failure.
- The insert of a transcript row fails when its video has no row. The reason is that a transcript refers to its video, which is the relation the join at embedding-service/main.py:141-144 reads. The schema itself is not part of this model.

Where the code and its comments disagree, the model follows the code:

- a chat history keeps 20 entries, although the comment beside it says 10;
- `process_transcript` never sets `txtUrl`, so the model lets a transcript row's `txtUrl` be missing (None); such a row is skipped when the transcripts are combined.

## Model

| member | source | states |
|---|---|---|
| Text.Strip | intelligence-service/main.py:481 | `str.strip()`: the result neither starts nor ends with whitespace, and is empty exactly when the input is all whitespace |
| Text.StripSlice | intelligence-service/main.py:481 | the stripped text is a slice of the input with only whitespace before and after it |
| Text.StripIdempotent | intelligence-service/main.py:481 | stripping an already stripped message changes nothing |
| Text.FormatIntReadsBack | video-processing-service/main.py:361 | `f"{n:0Wd}"` of n >= 0 is all digits, at least W long, and reads back as n |
| Text.FormatIntWidth | video-processing-service/main.py:361 | a number with at most W digits is formatted in exactly W characters |
| Text.ZeroPadShape | video-processing-service/main.py:361 | zero padding ends with the digits and puts only '0' before them |
| Text.SplitOnceJoined | video-processing-service/main.py:176 | `split('/', 1)` of a string built around its first '/' finds both parts again |
| Timestamps.FormatTimestamp | video-processing-service/main.py:351-361 | the `HH:MM:SS,mmm` text reads back as the clock of t |
| Timestamps.TimestampFields | video-processing-service/main.py:355-359 | minutes and seconds lie in [0, 59], milliseconds in [0, 999], hours are floor(t / 3600), and hours are negative exactly when t is |
| Timestamps.TimestampTruncates | video-processing-service/main.py:355-361 | the instant the clock shows is at most t and less than one millisecond before it (truncation, not rounding) |
| Timestamps.ClockIsFlooredMillis | video-processing-service/main.py:355-359 | the clock is the hours/minutes/seconds/millis reading of floor(1000 t), by integer division |
| Timestamps.FormatIntParses | video-processing-service/main.py:361 | any integer, negative ones included, formatted with `{n:0Wd}` (W >= 1) reads back as itself and is at least W long |
| Subtitles.LangCode | video-processing-service/main.py:320-336 | the language-code lookup returns the target language unchanged |
| Subtitles.CueText | video-processing-service/main.py:311-343 | a cue's text is the stripped original when the target is the detected language or English, or when translation raises; otherwise it is the translation |
| Subtitles.Cue | video-processing-service/main.py:345-347 | a cue starts with its number followed by a newline |
| Subtitles.SrtDocument | video-processing-service/main.py:252-255 | the document is empty exactly when Whisper returned no segment |
| Subtitles.GenerateSrt | video-processing-service/main.py:299-349 | the loop builds exactly the document of one cue per segment, in order, numbered from 1; the detected language defaults to 'en' |
| Subtitles.AppendSegment | video-processing-service/main.py:309-347 | the three appends of one loop pass add exactly the segment's cue |
| Subtitles.SrtAppendSegment | video-processing-service/main.py:308-347 | one more segment appends one cue, numbered one past the others, and leaves the earlier cues unchanged |
| VideoProcessing.ParseS3Url | video-processing-service/main.py:174-187 | the parse fails exactly for an `s3://` URL without a '/' after the scheme (the `IndexError`) and for an `https://` URL; any other text is a key of the default bucket |
| VideoProcessing.S3SchemeParses | video-processing-service/main.py:174-178 | an `s3://` URL is accepted exactly when a '/' follows the scheme; the bucket is the text before the first '/', it holds no '/', and bucket and key rebuild the URL |
| VideoProcessing.OtherUrlParses | video-processing-service/main.py:179-187 | an `https://` URL is refused with status 400; any other text is a key of the default bucket |
| VideoProcessing.S3UrlRoundTrip | video-processing-service/main.py:174-178 | `s3://bucket/key` with a '/'-free bucket parses back to that bucket and key |
| VideoProcessing.SrtUrlReadsBack | video-processing-service/main.py:260-271 | the `srtUrl` recorded for a transcript parses back to the object just uploaded |
| VideoProcessing.SrtLocationsDistinct | video-processing-service/main.py:260-267 | two languages of one video never share an `.srt` object |
| VideoProcessing.ProjectVideos | video-processing-service/main.py:368-370 | the ids found are exactly those of the project's videos |
| VideoProcessing.WithStatus | video-processing-service/main.py:139-142 | a status update changes only the status of that video; every other row is untouched, and a missing video is left missing |
| VideoProcessing.MarkDoneCompletes | video-processing-service/main.py:139-145 | marking a video DONE completes its project exactly when every other video of the project is DONE |
| VideoProcessing.OtherProjectUnaffected | video-processing-service/main.py:368-375 | updating a video of another project never changes whether a project is complete |
| VideoProcessing.Completed | video-processing-service/main.py:377-383 | the completed project row has status COMPLETED and `processedVideos` equal to the video count |
| VideoProcessing.TranscriptEffect | video-processing-service/main.py:207-297 | one language's run keeps every stored object, and either adds no transcript row or adds exactly its own row, and then only when the upload and insert succeed and the video has a row |
| VideoProcessing.TranscriptRunsAppend | video-processing-service/main.py:117-132 | the language loop only appends transcript rows, at most one per language; each row is for a language whose run stored it and points at that language's object |
| VideoProcessing.NothingTranscribed | video-processing-service/main.py:119-132 | when every language fails, the loop stores nothing |
| VideoProcessing.NoRowsWithoutVideo | video-processing-service/main.py:273-280 | a video without a row gets no transcript row, whatever was uploaded |
| VideoProcessing.ResetPending | video-processing-service/main.py:149-158 | the error handler sets the video (if it has a row) to PENDING, or changes nothing when that update raises; nothing else changes |
| VideoProcessing.MarkedDone | video-processing-service/main.py:138-158 | when no status call raises, the video ends DONE (if it has a row); when one raises, the project is untouched and, if the reset goes through, the video is PENDING; other videos and projects are untouched, no row is created or deleted, and transcripts and objects are untouched |
| VideoProcessing.Background | video-processing-service/main.py:105-162 | the background task never creates or deletes a project or video row |
| VideoProcessing.BackgroundWithoutVideo | video-processing-service/main.py:149-158 | a video that cannot be downloaded is reset to PENDING, or left as it was when the reset raises, and nothing else changes |
| VideoProcessing.BackgroundTranscripts | video-processing-service/main.py:117-132 | after a download the transcripts grow only by rows of languages of the request whose run stored them, and not at all for a video without a row |
| VideoProcessing.BackgroundStatus | video-processing-service/main.py:138-158 | after a download the video ends DONE, even when every language failed, unless a status call raises: then it is reset to PENDING, or, when the reset raises too, stays as it was (DONE update raised) or DONE (a later call raised); other videos and other projects are untouched; the project changes only when no call raised, it has a row and all its videos are DONE, and it is then COMPLETED with their number |
| VideoProcessing.ProcessingStore.ProcessVideo | video-processing-service/main.py:72-103 | succeeds exactly when the project lookup goes through, finds the project, and the PROCESSING update goes through; it then sets the video (if it has a row) to PROCESSING and hands over the owner id; a raising call is a 500 "Failed to start processing: " with its message, a missing project a 500 carrying the 404, and a failure changes nothing |
| VideoProcessing.ProcessingStore.MarkVideo | video-processing-service/main.py:87-90 | a status update that raises changes nothing; one that goes through sets the status of the video if it has a row |
| VideoProcessing.ProcessingStore.ProcessTranscript | video-processing-service/main.py:207-297 | one language changes the objects and rows as `TranscriptEffect` says, and succeeds, returning the recorded URL, exactly when Whisper, the upload and the insert succeed with a non-empty document and the video has a row |
| VideoProcessing.ProcessingStore.StoreTranscript | video-processing-service/main.py:259-288 | a failed upload stores nothing; a failed insert, the missing video included, leaves the uploaded object without a row |
| VideoProcessing.ProcessingStore.CheckAndUpdateProjectStatus | video-processing-service/main.py:363-383 | raises exactly when `find_many` raises, or all videos are DONE and the project update raises; otherwise the project becomes COMPLETED with the video count exactly when all its videos are DONE (vacuously with none) and it has a row; in every other case nothing changes |
| VideoProcessing.ProcessingStore.RunLanguages | video-processing-service/main.py:117-132 | the loop stores what the languages' runs store, in order, skipping failed ones |
| VideoProcessing.ProcessingStore.FinishVideo | video-processing-service/main.py:138-158 | marking DONE, checking the project and, when one of these raises, resetting to PENDING leaves the store `MarkedDone` describes |
| VideoProcessing.ProcessingStore.ProcessVideoBackground | video-processing-service/main.py:105-162 | the whole background task leaves the store `Background` describes |
| Chunking.Pack | embedding-service/main.py:205-221 | the packing is a greedy partition: order kept, budget respected, groups maximal |
| Chunking.JoinGroups | embedding-service/main.py:210 | one chunk per group, each its sentences joined with single spaces |
| Chunking.SplitIntoChunks | embedding-service/main.py:193-221 | the loop returns the joined groups of the greedy packing `Pack` |
| Chunking.PackFromFlatten | embedding-service/main.py:205-219 | the groups hold every sentence exactly once, in order |
| Chunking.PackFromBudget | embedding-service/main.py:209-215 | no group is empty, and a group is within the token budget unless it is one sentence |
| Chunking.PackFromMaximal | embedding-service/main.py:209-212 | a group is closed only when the next sentence would take it over the budget |
| Chunking.GreedyPartitionUnique | embedding-service/main.py:205-221 | any greedy partition of the sentences is the one the loop forms |
| EmbeddingPipeline.CombineTranscripts | embedding-service/main.py:167-191 | the buffer holds one section `"\n\n--- Video {id} ---\n\n" + content + "\n\n"` per downloaded transcript, in row order; failed downloads add nothing |
| EmbeddingPipeline.NothingDownloaded | embedding-service/main.py:171-191 | without a downloaded transcript the combined text is empty |
| EmbeddingPipeline.DownloadedNotBlank | embedding-service/main.py:183-185 | one downloaded transcript makes the combined text non-blank |
| EmbeddingPipeline.CombinedBlankIffNothingDownloaded | embedding-service/main.py:99-101 | the text is blank after `strip()` exactly when no transcript was downloaded |
| EmbeddingPipeline.TxtKeyOfUrl | embedding-service/main.py:174 | removing `s3://{bucket}/` from a URL of the bucket gives back its key |
| EmbeddingPipeline.Embeddings | embedding-service/main.py:223-244 | one embedding per chunk, in order; a failed call gives the empty list |
| EmbeddingPipeline.GenerateEmbeddings | embedding-service/main.py:223-244 | the loop returns exactly `Embeddings` |
| EmbeddingPipeline.VectorIdsDistinct | embedding-service/main.py:257 | `f"{project_id}_{i}"` ids are distinct for distinct chunk indexes |
| EmbeddingPipeline.VectorFor | embedding-service/main.py:256-266 | a vector's id, its values, its chunk index, its first min(1000, len) characters of text and its full text length |
| EmbeddingPipeline.Vectors | embedding-service/main.py:255-267 | min(chunks, embeddings) vectors, vector i built from chunk i and embedding i |
| EmbeddingPipeline.BuildVectors | embedding-service/main.py:255-267 | the loop returns exactly `Vectors` |
| EmbeddingPipeline.UpsertKeepsOthers | embedding-service/main.py:270 | the upsert leaves a vector alone when no new vector has its id |
| EmbeddingPipeline.UpsertStoresEveryVector | embedding-service/main.py:270 | after the upsert every numbered vector is stored under its own id |
| EmbeddingPipeline.StoredHasChunks | embedding-service/main.py:246-270 | the project's namespace then holds every chunk's vector under its id, with its index and its embedding |
| EmbeddingPipeline.Prepare | embedding-service/main.py:92-110 | the pipeline stops with 404 when there are no rows and with 400 for blank text; otherwise it yields the combined text, its chunks and their embeddings |
| EmbeddingPipeline.Wrapped | embedding-service/main.py:134-136 | every failure is re-raised as status 500 |
| EmbeddingPipeline.MarkCompleted | embedding-service/main.py:321-335 | only the project's status changes, to COMPLETED; an unknown project changes nothing |
| EmbeddingPipeline.Generate | embedding-service/main.py:78-136 | every failure the pipeline reports is an HTTP 500 |
| EmbeddingPipeline.Written | embedding-service/main.py:113-136 | every failure of the writes after the upsert is an HTTP 500 |
| EmbeddingPipeline.WrittenEffect | embedding-service/main.py:113-132 | after the upsert the vectors stay stored whatever follows; the `Embedding` record is written unless its upsert fails; the status is set to COMPLETED, and the summary returned, exactly when both writes succeed |
| EmbeddingPipeline.GenerateEarly | embedding-service/main.py:88-115 | a failure before the upsert succeeded (404, 400, index check, upsert) is reported wrapped and changes nothing |
| EmbeddingPipeline.GenerateWritten | embedding-service/main.py:113-136 | once the upsert succeeded the outcome is that of the writes after it |
| EmbeddingPipeline.TextFailureWhen | embedding-service/main.py:92-101 | the 404 or the 400 is raised exactly when no transcript could be downloaded |
| EmbeddingPipeline.GenerateFailsWhen | embedding-service/main.py:88-136 | the pipeline fails exactly when no transcript is downloaded or one of the index check, the upsert, the `Embedding` upsert and the status update fails |
| EmbeddingPipeline.GenerateFailure | embedding-service/main.py:88-136 | every failure, the 404 and 400 included, is a 500 "Failed to generate embeddings: ..." and never changes the status; what was written before the failing step stays written |
| EmbeddingPipeline.GenerateSummary | embedding-service/main.py:117-132 | on success `chunks_created == embeddings_generated`, one transcript is counted per row, the `Embedding` record names the namespace, and the project is COMPLETED |
| EmbeddingPipeline.GenerateStoresChunks | embedding-service/main.py:113-115 | on success every chunk's vector is in the project's namespace under its id |
| EmbeddingPipeline.GenerateStored | embedding-service/main.py:113-136 | once the upsert succeeded the namespaces are those `_store_in_pinecone` leaves, whatever happens afterwards |
| EmbeddingPipeline.EmbeddingService.StoreInPinecone | embedding-service/main.py:246-272 | the vectors are upserted into the project's namespace when the index check and the upsert succeed; otherwise the namespaces are unchanged and the first failure is returned |
| EmbeddingPipeline.EmbeddingService.UpsertEmbeddingRecord | embedding-service/main.py:304-319 | the record maps the project to its namespace, unless the write fails, which changes nothing and is returned |
| EmbeddingPipeline.EmbeddingService.UpdateProjectStatus | embedding-service/main.py:321-335 | the project is marked COMPLETED, unless the write fails, which changes nothing and is returned |
| EmbeddingPipeline.EmbeddingService.RecordCompletion | embedding-service/main.py:117-132 | the two table writes leave the tables and result `Written` describes |
| EmbeddingPipeline.EmbeddingService.GenerateEmbeddingsForProject | embedding-service/main.py:78-136 | the method's result and new state are those `Generate` describes |
| Retrieval.HasEmbeddings | intelligence-service/main.py:214-238 | statistics that show the project's namespace with a positive count always let a chain be built |
| Retrieval.CreateRetrievalChain | intelligence-service/main.py:240-323 | a chain (namespace = project id, top 5, memory window 5, empty memory) is built exactly when the namespace is listed with a `vector_count` |
| Retrieval.Recalled | intelligence-service/main.py:300-305 | the memory shows the newest min(5, n) exchanges, in order |
| Retrieval.Remember | intelligence-service/main.py:300-305 | answering appends the exchange to the memory and keeps the chain's configuration |
| Retrieval.RecalledAfterAnswer | intelligence-service/main.py:300-305 | after an answer the memory shows that exchange last, after at most four earlier ones, which are the newest it showed before |
| Retrieval.StoredChunksAreSeen | intelligence-service/main.py:219-230 | once the embedding service has stored a chunk for a project, the embeddings check says yes |
| Retrieval.Snippet | intelligence-service/main.py:378 | the text itself up to 200 characters; otherwise its first 200 characters followed by "..." |
| Retrieval.SnippetShape | intelligence-service/main.py:378 | a snippet is at most 203 characters, starts with the text, and equals it exactly when the text is short or already ends that way |
| Retrieval.FormatSource | intelligence-service/main.py:376-382 | the snippet; `video_id`, `chunk_index` and `timestamp` are copied from the metadata when present, and otherwise default to "unknown", 0 and "unknown" |
| Retrieval.FormatSources | intelligence-service/main.py:374-382 | one formatted source per document, in order |
| Retrieval.StoredVectorSource | intelligence-service/main.py:379-381 | a document from a stored vector keeps its chunk index, but its video id and timestamp always read "unknown" |
| Retrieval.EmbedQuery | intelligence-service/main.py:73-75 | a blank query embeds as 384 zeros; any other query goes to the model |
| Retrieval.ApologyText | intelligence-service/main.py:393 | the apology is a fixed prefix followed by the exception's message |
| Retrieval.Respond | intelligence-service/main.py:332-396 | without embeddings by the message's own check, the fixed reply and no change; otherwise success exactly when the chain is obtained and runs, and then the answer (or the fallback text), the formatted sources and the exchange remembered; any failure is an apology without sources, carrying the build's error (the cache unchanged) or run's error (the built chain cached unchanged); other projects' chains are untouched |
| Retrieval.SameReadsBuild | intelligence-service/main.py:223-258 | when the check and the build read the same statistics, a project that passes the check always gets a chain |
| Retrieval.FollowUpRemembers | intelligence-service/main.py:326-330 | after an answered message, the next message to the project is run on the cached chain whose memory ends with the first exchange |
| Retrieval.ChainCache.GetOrCreateChain | intelligence-service/main.py:326-330 | a cached chain is returned without building one; otherwise the built chain is cached, and a failure caches nothing |
| Retrieval.ChainCache.ProcessChatMessage | intelligence-service/main.py:332-396 | the reply and the new cache are those `Respond` describes, and every cached chain stays configured |
| ChatSessions.Window | intelligence-service/main.py:147-148 | the history keeps its newest min(20, n) entries |
| ChatSessions.AppendedShape | intelligence-service/main.py:141-148 | after adding, the history is 1 to 20 entries and ends with the new entry; nothing is dropped while there is room, and a full history drops exactly its oldest entry |
| ChatSessions.AppendedWindow | intelligence-service/main.py:144-148 | cutting before adding is the same as cutting after |
| ChatSessions.HistoryIsNewest | intelligence-service/main.py:141-148 | a history holds the newest min(20, n) of the n entries added to it, in order |
| ChatSessions.ConnectionId | intelligence-service/main.py:442 | a connection id starts with the project id and '_' |
| ChatSessions.ConnectionIdInjective | intelligence-service/main.py:442 | distinct (project, socket) pairs get distinct connection ids |
| ChatSessions.ConnectionManager.Connect | intelligence-service/main.py:121-124 | the socket is registered under its id |
| ChatSessions.ConnectionManager.Disconnect | intelligence-service/main.py:126-131 | the id leaves both maps, every other entry stays, and an unknown id changes nothing |
| ChatSessions.ConnectionManager.GetChatHistory | intelligence-service/main.py:138-139 | the connection's history, or empty for an unknown id; nothing changes |
| ChatSessions.ConnectionManager.AddToHistory | intelligence-service/main.py:141-148 | only that connection's history changes, to the newest 20 entries of the old history and the new entry; the connections are untouched |
| ChatSessions.ErrorText | intelligence-service/main.py:451-454 | a missing project is reported as "Project {id} not found" |
| ChatSessions.Classify | intelligence-service/main.py:476-518 | a closed socket, and only a closed socket, ends the loop; a question asked is non-empty and stripped |
| ChatSessions.ClassifySkips | intelligence-service/main.py:481-484 | a frame is skipped exactly when its message is missing or blank, and no blank message is asked |
| ChatSessions.Questions | intelligence-service/main.py:481-484 | every question the loop asks is non-empty and stripped |
| ChatSessions.Answers | intelligence-service/main.py:493-496 | one reply per question, in order, the first given by the chains as they stand |
| ChatSessions.StepReplies | intelligence-service/main.py:486-504 | a question's frame sends exactly one reply, the one `Respond` gives; any other frame sends no reply and leaves the chains alone |
| ChatSessions.EachQuestionAnswered | intelligence-service/main.py:476-518 | the replies sent are exactly the answers to the questions asked, in order, one each, every answer given with the chains the earlier questions left |
| ChatSessions.LoopConfigured | intelligence-service/main.py:476-518 | a whole session keeps every cached chain configured for its project |
| ChatSessions.SessionReplies | intelligence-service/main.py:448-473 | a missing project, or a project without embeddings by the check read when the session starts, gets one error and no chain changes; otherwise the welcome comes first |
| ChatSessions.HandleFrame | intelligence-service/main.py:486-518 | one frame sends and changes what `Step` describes: a typing notice and the reply to a question, an error for a bad frame, or nothing |
| ChatSessions.ReceiveLoop | intelligence-service/main.py:476-518 | the loop sends, and leaves the chains, as `Loop` of the frames describes |
| ChatSessions.ChatSession | intelligence-service/main.py:440-523 | the session sends, and leaves the chains, as `SessionReplies` describes; at the end both maps drop the connection and keep every other entry |

## Left out

- I/O and external services are not modelled: Whisper, ffmpeg, GoogleTranslator, S3 (boto3), Pinecone, Postgres (asyncpg and Prisma), the Ollama HTTP call, LangChain and the LLM. What they compute is a parameter of the model, and whether the calls listed in the overview succeed is an input (`Backends`, `Persister`, `Snapshots`, `StartCalls`, `StatusCalls`); their own behaviour is not part of this model.
- Whether Pinecone accepts the vectors (for instance embeddings of a dimension other than the index's 384) is the `upsert` outcome of `Backends`; the model does not derive it from the vectors.
- Transport is not modelled: FastAPI routing, websocket accept/send/receive and JSON encoding. The model represents a session's received frames as a sequence. Sent messages are values.
- Concurrency is not modelled. `process_video` hands `process_video_background` to `asyncio.create_task`, and the model runs the two as separate methods, one after the other. Sessions of one project share the chain cache; the model runs them one after another, not interleaved.
- Temporary files and their cleanup with `os.unlink` are filesystem effects, so they are left out. Checking whether the video or audio file exists is left out too. A failure there is one of the errors `transcribe` may return.
- `_fetch_english_transcripts` is a database query. Its rows are an input. A query that raises returns no rows, and the model treats that the same as a project without English transcripts.
- The regular expressions at embedding-service/main.py:196 and :199 are left out. The sentence splitter is the parameter `split`. The raw patterns `r'\\s+'` match a backslash followed by `s` characters, not whitespace. The model does not depend on either pattern.
- The tokenizer (`encoding.encode`) is left out. The parameter `tokens` gives a sentence's token count; the budget bounds the sum of these counts, not the token count of the joined chunk.
- Embedding arithmetic is left out: mean pooling and normalisation in `embed_query` (intelligence-service/main.py:77-95) are floating-point numerics. Only the blank-query branch is modelled.
- Timestamps.FormatTimestamp: Python floats are taken as exact reals, so rounding errors of `//` and `%` on floats are not modelled.
- Pinecone index creation and the quota message in `_ensure_pinecone_index` (embedding-service/main.py:274-302) are left out. Their outcome is the input `indexCheck`.
- Retrieval.Respond: the retriever test at intelligence-service/main.py:352-362 only logs, and an exception it raises is one of the failures of `run`. The memory records an exchange only when the chain returns; the answer is kept as an Option because the chain may return none.
- The text of exceptions raised by libraries (the Prisma foreign-key error, Python's `IndexError`, the Pinecone and database errors) is symbolic. The status codes and the messages the services write themselves are exact.
- `send_message`, `verify_project_exists`, `get_project_info`, the health checks and the lifespan hooks are left out. They only do I/O. `verify_project_exists` becomes the input `project` of `ChatSession`.
- Logging and `print` are left out.
