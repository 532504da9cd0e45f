/**
 * The request handling of the video-processing service: parsing the S3 location
 * of an uploaded video, naming the SubRip objects it produces, and the status
 * records it updates (a video is PENDING, PROCESSING or DONE; a project becomes
 * COMPLETED once all of its videos are DONE).
 *
 * The database (Prisma) and the S3 bucket are the fields of `ProcessingStore`.
 * ffmpeg and Whisper are the parameter `transcribe`, which gives for each
 * language either the transcription of the downloaded video or the message of
 * the exception they raised; GoogleTranslator is the parameter `translate`.
 */
module VideoProcessing {
  import opened Wrappers
  import opened Text
  import opened Subtitles

  datatype S3Location = S3Location(bucket: string, key: string)

  /** `f"s3://{bucket}/{key}"` */
  function S3Url(loc: S3Location): string {
    "s3://" + loc.bucket + "/" + loc.key
  }

  /** The bucket and key `download_video_from_s3` reads a video from. An `s3://`
      URL is split at the first '/' after the scheme, and indexing the missing
      second part raises when there is none; an `https://` URL is refused with
      status 400; anything else is a key in the default bucket. */
  function ParseS3Url(url: string, defaultBucket: string): (r: Result<S3Location, Fault>)
    ensures r.Failure? <==> if StartsWith(url, "s3://") then '/' !in url[5..] else StartsWith(url, "https://")
    ensures r.Success? && !StartsWith(url, "s3://") ==> r.value == S3Location(defaultBucket, url)
  {
    if StartsWith(url, "s3://") then
      var parts := SplitOnce(url[5..], '/');
      if |parts| < 2 then Failure(Raised("list index out of range"))
      else Success(S3Location(parts[0], parts[1]))
    else if StartsWith(url, "https://") then
      Failure(Http(400, "Please provide S3 URL in s3:// format or just the S3 key"))
    else Success(S3Location(defaultBucket, url))
  }

  /** An `s3://` URL is accepted exactly when a '/' follows the scheme, and then
      the location found rebuilds the URL, with a bucket that holds no '/'. */
  lemma S3SchemeParses(url: string, defaultBucket: string)
    requires StartsWith(url, "s3://")
    ensures ParseS3Url(url, defaultBucket).Success? <==> '/' in url[5..]
    ensures ParseS3Url(url, defaultBucket).Success? ==>
      S3Url(ParseS3Url(url, defaultBucket).value) == url
      && '/' !in ParseS3Url(url, defaultBucket).value.bucket
  {
    var rest := url[5..];
    assert url == "s3://" + rest;
    var parts := SplitOnce(rest, '/');
    if |parts| == 2 {
      assert rest == parts[0] + ['/'] + parts[1];
      S3UrlParts(parts[0], parts[1]);
    }
  }

  lemma S3UrlParts(bucket: string, key: string)
    ensures S3Url(S3Location(bucket, key)) == "s3://" + (bucket + ['/'] + key)
  {
    var scheme: string := "s3://";
    assert scheme + bucket + "/" + key == scheme + (bucket + ['/'] + key);
  }

  /** Any other URL is refused with status 400 when it is `https://`, and is
      otherwise taken whole as a key of the default bucket. */
  lemma OtherUrlParses(url: string, defaultBucket: string)
    requires !StartsWith(url, "s3://")
    ensures StartsWith(url, "https://") ==>
      ParseS3Url(url, defaultBucket).Failure?
      && ParseS3Url(url, defaultBucket).error.Http?
      && ParseS3Url(url, defaultBucket).error.status == 400
    ensures !StartsWith(url, "https://") ==>
      ParseS3Url(url, defaultBucket) == Success(S3Location(defaultBucket, url))
  {
  }

  /** Every `s3://` URL of a bucket without '/' reads back as its bucket and key. */
  lemma S3UrlRoundTrip(loc: S3Location, defaultBucket: string)
    requires '/' !in loc.bucket
    ensures ParseS3Url(S3Url(loc), defaultBucket) == Success(loc)
  {
    var url := S3Url(loc);
    assert url[..5] == "s3://";
    assert url[5..] == loc.bucket + ['/'] + loc.key;
    SplitOnceJoined(loc.bucket, '/', loc.key);
  }

  /** `os.getenv('S3_BUCKET_NAME', 'vidwise')` */
  function BucketName(env: Option<string>): string {
    env.GetOr("vidwise")
  }

  /** `f"{video_id}_{language}.srt"` */
  function SrtFileName(videoId: string, language: string): string {
    videoId + "_" + language + ".srt"
  }

  /** `f"{user_id}/{project_id}/transcripts/{srt_filename}"` */
  function TranscriptKey(userId: string, projectId: string, fileName: string): string {
    userId + "/" + projectId + "/transcripts/" + fileName
  }

  /** Where `process_transcript` uploads the SubRip file of one language. */
  function SrtLocation(bucket: string, userId: string, projectId: string, videoId: string,
                       language: string): S3Location {
    S3Location(bucket, TranscriptKey(userId, projectId, SrtFileName(videoId, language)))
  }

  /** The `srtUrl` recorded for a transcript is the `s3://` URL of the object just
      uploaded: it reads back as that bucket and key. */
  lemma SrtUrlReadsBack(bucket: string, userId: string, projectId: string, videoId: string,
                        language: string, defaultBucket: string)
    requires '/' !in bucket
    ensures var loc := SrtLocation(bucket, userId, projectId, videoId, language);
      ParseS3Url(S3Url(loc), defaultBucket) == Success(loc)
  {
    S3UrlRoundTrip(SrtLocation(bucket, userId, projectId, videoId, language), defaultBucket);
  }

  /** Two languages of the same video never share a SubRip object. */
  lemma SrtLocationsDistinct(bucket: string, userId: string, projectId: string, videoId: string,
                             lang1: string, lang2: string)
    ensures (SrtLocation(bucket, userId, projectId, videoId, lang1)
             == SrtLocation(bucket, userId, projectId, videoId, lang2)) <==> lang1 == lang2
  {
    var prefix := userId + "/" + projectId + "/transcripts/" + videoId + "_";
    var k1 := SrtLocation(bucket, userId, projectId, videoId, lang1).key;
    var k2 := SrtLocation(bucket, userId, projectId, videoId, lang2).key;
    assert k1 == prefix + lang1 + ".srt";
    assert k2 == prefix + lang2 + ".srt";
    if k1 == k2 {
      assert |lang1| == |lang2|;
      assert lang1 == k1[|prefix|..|prefix| + |lang1|];
      assert lang2 == k2[|prefix|..|prefix| + |lang2|];
    }
  }


  datatype VideoStatus = Pending | Processing | Done

  datatype Video = Video(projectId: string, status: VideoStatus)

  /** The project row: its owner, its status text and the `processedVideos` count. */
  datatype Project = Project(ownerId: string, status: string, processedVideos: int)

  datatype Transcript = Transcript(language: string, srtUrl: string, videoId: string)

  datatype VideoRequest = VideoRequest(videoS3Url: string, projectId: string, videoId: string,
                                       languages: seq<string>)

  datatype TranscriptResponse = TranscriptResponse(language: string, srtUrl: string)

  datatype ProcessVideoResponse = ProcessVideoResponse(videoId: string, transcripts: seq<TranscriptResponse>,
                                                       status: string)

  /** The outcome of extracting the audio of the downloaded video and running
      Whisper on it, for one language. */
  type Transcriber = string -> Result<Transcription, string>

  /** The outcome of storing one language's SubRip document: `upload_file` may
      raise, and so may `transcript.create` after a successful upload. */
  datatype Persisted = Persisted | UploadFailed(message: string) | InsertFailed(message: string)

  type Persister = string -> Persisted

  /** The outcomes of the Prisma calls `process_video` makes: `project.find_unique`
      and the PROCESSING `video.update`; a failure carries the exception's message. */
  datatype StartCalls = StartCalls(findProject: Result<(), string>, markProcessing: Result<(), string>)

  /** The outcomes of the Prisma calls after the language loop: the DONE
      `video.update`, `video.find_many`, the `project.update` (made only when all
      videos are DONE), and the PENDING `video.update` of the error handler. */
  datatype StatusCalls = StatusCalls(markDone: Result<(), string>, findVideos: Result<(), string>,
                                     completeProject: Result<(), string>, reset: Result<(), string>)

  /** One background job: the request, the owner's id, the bucket, and the
      outcomes of the external calls it makes for each language and afterwards. */
  datatype Job = Job(req: VideoRequest, userId: string, bucket: string, transcribe: Transcriber,
                     translate: Translator, persist: Persister, calls: StatusCalls)

  /** The ids of the videos of a project (`video.find_many(projectId=...)`). */
  function ProjectVideos(videos: map<string, Video>, projectId: string): (ids: set<string>)
    ensures forall id :: id in ids <==> id in videos && videos[id].projectId == projectId
  {
    set id | id in videos && videos[id].projectId == projectId
  }

  /** `all(video.status == "DONE" for video in videos)` */
  predicate AllDone(videos: map<string, Video>, projectId: string) {
    forall id :: id in videos && videos[id].projectId == projectId ==> videos[id].status == Done
  }

  /** `video.update(where={"id": id}, data={"status": s})`; Prisma's `update`
      returns None, and changes nothing, when the row does not exist. */
  function WithStatus(videos: map<string, Video>, id: string, s: VideoStatus): (r: map<string, Video>)
    ensures r.Keys == videos.Keys
    ensures id in videos ==> r[id] == videos[id].(status := s)
    ensures forall other :: other in videos && other != id ==> r[other] == videos[other]
  {
    if id in videos then videos[id := videos[id].(status := s)] else videos
  }

  /** Marking one video DONE completes its project exactly when every other video
      of the project is DONE already; a project without videos is complete. */
  lemma MarkDoneCompletes(videos: map<string, Video>, id: string, projectId: string)
    requires id in videos && videos[id].projectId == projectId
    ensures AllDone(WithStatus(videos, id, Done), projectId)
            <==> forall other :: other in videos && other != id && videos[other].projectId == projectId
                   ==> videos[other].status == Done
  {
  }

  /** Marking a video of another project never changes whether a project is complete. */
  lemma OtherProjectUnaffected(videos: map<string, Video>, id: string, s: VideoStatus, projectId: string)
    requires id in videos && videos[id].projectId != projectId
    ensures AllDone(WithStatus(videos, id, s), projectId) <==> AllDone(videos, projectId)
  {
    assert forall v :: v in videos && videos[v].projectId == projectId ==> v != id;
  }

  /** The project row after `check_and_update_project_status` found all videos DONE. */
  function Completed(p: Project, videoCount: nat): (r: Project)
    ensures r.status == "COMPLETED" && r.processedVideos == videoCount && r.ownerId == p.ownerId
  {
    p.(status := "COMPLETED", processedVideos := videoCount)
  }

  /** Whether Whisper succeeds for a language and returns at least one segment
      (otherwise the SubRip document is empty and `process_transcript` raises
      before uploading anything). */
  predicate Transcribed(language: string, transcribe: Transcriber) {
    transcribe(language).Success? && transcribe(language).value.segments != []
  }

  /** Whether the run for a language gets as far as inserting its transcript row
      and the insert succeeds on the service's side. */
  predicate Persists(language: string, job: Job) {
    Transcribed(language, job.transcribe) && job.persist(language).Persisted?
  }

  /** Where the run for a language uploads its SubRip document. */
  function JobLocation(job: Job, language: string): S3Location {
    SrtLocation(job.bucket, job.userId, job.req.projectId, job.req.videoId, language)
  }

  /** The transcript row the run for a language inserts. */
  function JobRow(job: Job, language: string): Transcript {
    Transcript(language, S3Url(JobLocation(job, language)), job.req.videoId)
  }

  /** The SubRip objects and transcript rows after one run of `process_transcript`:
      the document is uploaded unless the upload raises, and its row is inserted
      after the upload unless the insert raises, which it does when the video has
      no row (the transcript refers to its video). */
  function TranscriptEffect(language: string, job: Job, videoKnown: bool,
                            objects: map<S3Location, string>, records: seq<Transcript>)
    : (r: (map<S3Location, string>, seq<Transcript>))
    ensures objects.Keys <= r.0.Keys
    ensures r.1 == records || (Persists(language, job) && videoKnown && r.1 == records + [JobRow(job, language)])
  {
    if !Transcribed(language, job.transcribe) || job.persist(language).UploadFailed? then (objects, records)
    else
      var uploaded := objects[JobLocation(job, language) :=
                              SrtDocument(job.transcribe(language).value, language, job.translate)];
      if job.persist(language).Persisted? && videoKnown then (uploaded, records + [JobRow(job, language)])
      else (uploaded, records)
  }

  /** The SubRip objects and transcript rows after the per-language loop of
      `process_video_background` over `languages`, in order. */
  function TranscriptRuns(languages: seq<string>, job: Job, videoKnown: bool,
                          objects: map<S3Location, string>, records: seq<Transcript>)
    : (map<S3Location, string>, seq<Transcript>)
  {
    if languages == [] then (objects, records)
    else
      var n := |languages|;
      var before := TranscriptRuns(languages[..n - 1], job, videoKnown, objects, records);
      TranscriptEffect(languages[n - 1], job, videoKnown, before.0, before.1)
  }

  lemma TranscriptRunsStep(languages: seq<string>, i: nat, job: Job, videoKnown: bool,
                           objects: map<S3Location, string>, records: seq<Transcript>)
    requires i < |languages|
    ensures var before := TranscriptRuns(languages[..i], job, videoKnown, objects, records);
      TranscriptRuns(languages[..i + 1], job, videoKnown, objects, records)
      == TranscriptEffect(languages[i], job, videoKnown, before.0, before.1)
  {
    assert languages[..i + 1][..i] == languages[..i];
  }

  /** A transcript row the language loop may add: the row of one of the requested
      languages whose run stored it. */
  predicate LoopRow(t: Transcript, languages: seq<string>, job: Job) {
    t.language in languages && Persists(t.language, job) && t == JobRow(job, t.language)
  }

  /** `rows` extends `records` by at most one row per language of `languages`, each
      a row the language loop may add. */
  predicate ExtendsBy(rows: seq<Transcript>, records: seq<Transcript>, languages: seq<string>, job: Job) {
    && |records| <= |rows| <= |records| + |languages|
    && rows[..|records|] == records
    && forall k :: |records| <= k < |rows| ==> LoopRow(rows[k], languages, job)
  }

  lemma ExtendsByStep(before: seq<Transcript>, rows: seq<Transcript>, records: seq<Transcript>,
                      prefix: seq<string>, lang: string, job: Job)
    requires ExtendsBy(before, records, prefix, job)
    requires rows == before || (Persists(lang, job) && rows == before + [JobRow(job, lang)])
    ensures ExtendsBy(rows, records, prefix + [lang], job)
  {
    var languages := prefix + [lang];
    assert rows[..|before|] == before;
    assert rows[..|records|] == before[..|records|];
    forall k | |records| <= k < |rows|
      ensures LoopRow(rows[k], languages, job)
    {
      if k < |before| {
        assert rows[k] == before[k];
        assert LoopRow(before[k], prefix, job);
        assert rows[k].language in prefix;
      } else {
        assert rows[k] == JobRow(job, lang);
      }
    }
  }

  /** The language loop only appends rows, at most one per language, and each is
      the row of a requested language whose run stored it. */
  lemma {:induction false} TranscriptRunsAppend(languages: seq<string>, job: Job, videoKnown: bool,
                                                objects: map<S3Location, string>, records: seq<Transcript>)
    ensures ExtendsBy(TranscriptRuns(languages, job, videoKnown, objects, records).1, records, languages, job)
    decreases |languages|
  {
    if languages != [] {
      var n := |languages|;
      var prefix := languages[..n - 1];
      var lang := languages[n - 1];
      TranscriptRunsAppend(prefix, job, videoKnown, objects, records);
      var before := TranscriptRuns(prefix, job, videoKnown, objects, records);
      ExtendsByStep(before.1, TranscriptEffect(lang, job, videoKnown, before.0, before.1).1,
                    records, prefix, lang, job);
      assert prefix + [lang] == languages;
    }
  }

  /** When no language is transcribed, the loop stores nothing at all. */
  lemma {:induction false} NothingTranscribed(languages: seq<string>, job: Job, videoKnown: bool,
                                              objects: map<S3Location, string>, records: seq<Transcript>)
    requires forall k :: 0 <= k < |languages| ==> !Transcribed(languages[k], job.transcribe)
    ensures TranscriptRuns(languages, job, videoKnown, objects, records) == (objects, records)
    decreases |languages|
  {
    if languages != [] {
      NothingTranscribed(languages[..|languages| - 1], job, videoKnown, objects, records);
    }
  }

  /** A video without a row gets no transcript row, whatever was uploaded. */
  lemma {:induction false} NoRowsWithoutVideo(languages: seq<string>, job: Job,
                                              objects: map<S3Location, string>, records: seq<Transcript>)
    ensures TranscriptRuns(languages, job, false, objects, records).1 == records
    decreases |languages|
  {
    if languages != [] {
      NoRowsWithoutVideo(languages[..|languages| - 1], job, objects, records);
    }
  }

  /** What the service keeps: the project, video and transcript rows and the S3
      objects. */
  datatype Store = Store(projects: map<string, Project>, videos: map<string, Video>,
                         transcripts: seq<Transcript>, objects: map<S3Location, string>)

  /** The error handler of `process_video_background`: the video is reset to
      PENDING, unless that update raises too, which is swallowed. */
  function ResetPending(s: Store, req: VideoRequest, calls: StatusCalls): (r: Store)
    ensures r.projects == s.projects && r.transcripts == s.transcripts && r.objects == s.objects
    ensures r.videos == if calls.reset.Success? then WithStatus(s.videos, req.videoId, Pending) else s.videos
  {
    if calls.reset.Success? then s.(videos := WithStatus(s.videos, req.videoId, Pending)) else s
  }

  /** Whether one of the calls after the language loop raises: the DONE update,
      `find_many`, or the project update, which is made only when every video of
      the project is then DONE. */
  predicate StatusRaises(videos: map<string, Video>, req: VideoRequest, calls: StatusCalls) {
    || calls.markDone.Failure?
    || calls.findVideos.Failure?
    || (AllDone(WithStatus(videos, req.videoId, Done), req.projectId) && calls.completeProject.Failure?)
  }

  /** The rows after the video is marked DONE and `check_and_update_project_status`
      runs: the video becomes DONE (if it has a row) and the project is completed
      when it has a row and all of its videos are then DONE; a raising call ends
      this in the error handler, which resets the video to PENDING. */
  function MarkedDone(s: Store, req: VideoRequest, calls: StatusCalls): (r: Store)
    ensures r.videos.Keys == s.videos.Keys && r.projects.Keys == s.projects.Keys
    ensures r.transcripts == s.transcripts && r.objects == s.objects
    ensures forall id :: id in s.videos && id != req.videoId ==> r.videos[id] == s.videos[id]
    ensures forall p :: p in s.projects && p != req.projectId ==> r.projects[p] == s.projects[p]
    ensures !StatusRaises(s.videos, req, calls) && req.videoId in s.videos ==> r.videos[req.videoId].status == Done
    ensures StatusRaises(s.videos, req, calls) ==> r.projects == s.projects
    ensures StatusRaises(s.videos, req, calls) && calls.reset.Success? && req.videoId in s.videos ==>
      r.videos[req.videoId].status == Pending
  {
    if calls.markDone.Failure? then ResetPending(s, req, calls)
    else
      var done := s.(videos := WithStatus(s.videos, req.videoId, Done));
      if calls.findVideos.Failure? then ResetPending(done, req, calls)
      else if !AllDone(done.videos, req.projectId) then done
      else if calls.completeProject.Failure? then ResetPending(done, req, calls)
      else if req.projectId !in s.projects then done
      else done.(projects := s.projects[req.projectId := Completed(s.projects[req.projectId],
                                                                   |ProjectVideos(done.videos, req.projectId)|)])
  }

  /** Whether `download_video_from_s3` finds the video of the request. */
  predicate Downloadable(req: VideoRequest, bucket: string, objects: map<S3Location, string>) {
    ParseS3Url(req.videoS3Url, bucket).Success? && ParseS3Url(req.videoS3Url, bucket).value in objects
  }

  /** The store after `process_video_background`: a failed download resets the
      video to PENDING; otherwise every language runs, the video is marked DONE and
      the project is checked. No project or video row is created or deleted. */
  function Background(job: Job, s: Store): (r: Store)
    ensures r.videos.Keys == s.videos.Keys && r.projects.Keys == s.projects.Keys
  {
    if !Downloadable(job.req, job.bucket, s.objects) then ResetPending(s, job.req, job.calls)
    else
      var runs := TranscriptRuns(job.req.languages, job, job.req.videoId in s.videos, s.objects, s.transcripts);
      MarkedDone(s.(objects := runs.0, transcripts := runs.1), job.req, job.calls)
  }

  /** A video that cannot be downloaded is reset to PENDING, unless that update
      raises, and nothing else changes. */
  lemma BackgroundWithoutVideo(job: Job, s: Store)
    requires !Downloadable(job.req, job.bucket, s.objects)
    ensures var r := Background(job, s);
      && (job.calls.reset.Success? && job.req.videoId in s.videos ==> r.videos[job.req.videoId].status == Pending)
      && (job.calls.reset.Failure? ==> r.videos == s.videos)
      && (forall id :: id in s.videos && id != job.req.videoId ==> r.videos[id] == s.videos[id])
      && r.projects == s.projects && r.transcripts == s.transcripts && r.objects == s.objects
  {
  }

  /** After a download the transcripts only grow, by at most one row per requested
      language, each the row of a language whose run stored it; a video without a
      row gets none. */
  lemma BackgroundTranscripts(job: Job, s: Store)
    requires Downloadable(job.req, job.bucket, s.objects)
    ensures ExtendsBy(Background(job, s).transcripts, s.transcripts, job.req.languages, job)
    ensures job.req.videoId !in s.videos ==> Background(job, s).transcripts == s.transcripts
  {
    TranscriptRunsAppend(job.req.languages, job, job.req.videoId in s.videos, s.objects, s.transcripts);
    if job.req.videoId !in s.videos {
      NoRowsWithoutVideo(job.req.languages, job, s.objects, s.transcripts);
    }
  }

  /** After a download the video ends DONE, even when every language failed,
      unless a status call raises: then it is reset to PENDING, or, when the reset
      raises as well, keeps the status of the last update that went through. Every
      other video and every other project is untouched; the project changes only
      when no call raised, it has a row and all its videos are DONE, and then it is
      COMPLETED with their number. */
  lemma BackgroundStatus(job: Job, s: Store)
    requires Downloadable(job.req, job.bucket, s.objects)
    ensures var r := Background(job, s);
      var vid, pid, calls := job.req.videoId, job.req.projectId, job.calls;
      var raised := StatusRaises(s.videos, job.req, calls);
      && (!raised && vid in s.videos ==> r.videos[vid].status == Done)
      && (raised && calls.reset.Success? && vid in s.videos ==> r.videos[vid].status == Pending)
      && (raised && calls.reset.Failure? && calls.markDone.Failure? ==> r.videos == s.videos)
      && (raised && calls.reset.Failure? && calls.markDone.Success? && vid in s.videos ==>
            r.videos[vid].status == Done)
      && (forall id :: id in s.videos && id != vid ==> r.videos[id] == s.videos[id])
      && (forall p :: p in s.projects && p != pid ==> r.projects[p] == s.projects[p])
      && (raised ==> r.projects == s.projects)
      && (r.projects != s.projects ==> pid in s.projects && AllDone(r.videos, pid))
      && (!raised && AllDone(r.videos, pid) && pid in s.projects
          ==> r.projects[pid].status == "COMPLETED"
              && r.projects[pid].processedVideos == |ProjectVideos(r.videos, pid)|)
  {
  }

  /** The exception `process_transcript` re-raises for a language. */
  function TranscriptFailure(language: string, message: string): Fault {
    Raised("Failed to process transcript for " + language + ": " + message)
  }

  /** The database rows and the S3 objects the service reads and writes. */
  class ProcessingStore {
    var projects: map<string, Project>
    var videos: map<string, Video>
    var transcripts: seq<Transcript>
    var objects: map<S3Location, string>
    /** `os.getenv('S3_BUCKET_NAME', 'vidwise')`, read once */
    const bucket: string

    constructor (projects0: map<string, Project>, videos0: map<string, Video>,
                 objects0: map<S3Location, string>, env: Option<string>)
      ensures projects == projects0 && videos == videos0 && objects == objects0
      ensures transcripts == [] && bucket == BucketName(env)
    {
      projects := projects0;
      videos := videos0;
      transcripts := [];
      objects := objects0;
      bucket := BucketName(env);
    }

    /** `process_video`: the project must exist; the video (if it has a row)
        becomes PROCESSING and the background task is handed the owner's id. Every
        exception, the 404 for a missing project among them, reaches the caller as
        status 500. */
    method ProcessVideo(req: VideoRequest, calls: StartCalls) returns (r: Result<ProcessVideoResponse, Fault>, ownerId: Option<string>)
      modifies this`videos
      ensures r.Success? <==>
        calls.findProject.Success? && req.projectId in projects && calls.markProcessing.Success?
      ensures r.Success? ==>
        && r.value == ProcessVideoResponse(req.videoId, [], "processing_started")
        && ownerId == Some(projects[req.projectId].ownerId)
        && videos == WithStatus(old(videos), req.videoId, Processing)
      ensures calls.findProject.Failure? ==>
        r == Failure(Http(500, "Failed to start processing: " + calls.findProject.error))
      ensures calls.findProject.Success? && req.projectId !in projects ==>
        r == Failure(Http(500, "Failed to start processing: 404: Project not found"))
      ensures calls.findProject.Success? && req.projectId in projects && calls.markProcessing.Failure? ==>
        r == Failure(Http(500, "Failed to start processing: " + calls.markProcessing.error))
      ensures r.Failure? ==> ownerId.None? && videos == old(videos)
    {
      ownerId := None;
      if calls.findProject.Failure? {
        r := Failure(Http(500, "Failed to start processing: " + calls.findProject.error));
        return;
      }
      if req.projectId !in projects {
        r := Failure(Http(500, "Failed to start processing: 404: Project not found"));
        return;
      }
      var marked := MarkVideo(req.videoId, Processing, calls.markProcessing);
      if marked.Failure? {
        r := Failure(Http(500, "Failed to start processing: " + marked.error));
        return;
      }
      ownerId := Some(projects[req.projectId].ownerId);
      r := Success(ProcessVideoResponse(req.videoId, [], "processing_started"));
    }

    /** A Prisma `video.update` of the status: when it raises nothing changes, and
        a video without a row stays without one. */
    method MarkVideo(id: string, status: VideoStatus, outcome: Result<(), string>) returns (r: Result<(), string>)
      modifies this`videos
      ensures r == outcome
      ensures videos == if outcome.Success? then WithStatus(old(videos), id, status) else old(videos)
    {
      r := outcome;
      if outcome.Success? {
        videos := WithStatus(videos, id, status);
      }
    }

    /** `process_transcript`: transcribe, serialise the SubRip document, upload it
        and record the transcript row; an empty document, a failed upload and a
        failed insert each raise, the last one after the object was uploaded. */
    method ProcessTranscript(language: string, job: Job) returns (r: Result<TranscriptResponse, Fault>)
      requires job.bucket == bucket
      modifies this`objects, this`transcripts
      ensures (objects, transcripts)
              == TranscriptEffect(language, job, job.req.videoId in videos, old(objects), old(transcripts))
      ensures r.Success? <==> Persists(language, job) && job.req.videoId in videos
      ensures r.Success? ==> r.value == TranscriptResponse(language, S3Url(JobLocation(job, language)))
    {
      var result := job.transcribe(language);
      if result.Failure? {
        r := Failure(TranscriptFailure(language, result.error));
        return;
      }
      var srt := GenerateSrt(result.value, language, job.translate);
      if srt == "" {
        r := Failure(TranscriptFailure(language, "SRT content generation failed"));
        return;
      }
      r := StoreTranscript(language, job, srt);
    }

    /** The end of `process_transcript`: upload the SubRip document of a
        transcribed language and insert its transcript row. The upload may raise;
        the insert may raise, and does when the video has no row, after the
        object was uploaded. */
    method StoreTranscript(language: string, job: Job, srt: string) returns (r: Result<TranscriptResponse, Fault>)
      requires job.bucket == bucket && Transcribed(language, job.transcribe)
      requires srt == SrtDocument(job.transcribe(language).value, language, job.translate)
      modifies this`objects, this`transcripts
      ensures (objects, transcripts)
              == TranscriptEffect(language, job, job.req.videoId in videos, old(objects), old(transcripts))
      ensures r.Success? <==> job.persist(language).Persisted? && job.req.videoId in videos
      ensures r.Success? ==> r.value == TranscriptResponse(language, S3Url(JobLocation(job, language)))
    {
      var loc := JobLocation(job, language);
      var persisted := job.persist(language);
      if persisted.UploadFailed? {
        r := Failure(TranscriptFailure(language, persisted.message));
        return;
      }
      objects := objects[loc := srt];
      var srtUrl := S3Url(loc);
      if persisted.InsertFailed? {
        r := Failure(TranscriptFailure(language, persisted.message));
        return;
      }
      if job.req.videoId !in videos {
        r := Failure(TranscriptFailure(language, "Foreign key constraint failed"));
        return;
      }
      transcripts := transcripts + [Transcript(language, srtUrl, job.req.videoId)];
      r := Success(TranscriptResponse(language, srtUrl));
    }

    /** `check_and_update_project_status`: when every video of the project is DONE
        (vacuously so when it has none), the project becomes COMPLETED with
        `processedVideos` set to its number of videos; a missing project row is
        left missing. `find_many` and the project update may raise, and the
        exception is passed on to the caller. */
    method CheckAndUpdateProjectStatus(projectId: string, findVideos: Result<(), string>,
                                       completeProject: Result<(), string>) returns (r: Result<(), string>)
      modifies this`projects
      ensures r.Failure? <==> findVideos.Failure? || (AllDone(videos, projectId) && completeProject.Failure?)
      ensures findVideos.Failure? ==> r == findVideos
      ensures findVideos.Success? && AllDone(videos, projectId) ==> r == completeProject
      ensures r.Success? && AllDone(videos, projectId) && projectId in old(projects) ==>
        projects == old(projects)[projectId := Completed(old(projects)[projectId],
                                                         |ProjectVideos(videos, projectId)|)]
      ensures r.Failure? || !AllDone(videos, projectId) || projectId !in old(projects) ==> projects == old(projects)
    {
      if findVideos.Failure? {
        return findVideos;
      }
      var ids := ProjectVideos(videos, projectId);
      var allDone := forall id | id in ids :: videos[id].status == Done;
      assert allDone <==> AllDone(videos, projectId);
      if !allDone {
        return Success(());
      }
      if completeProject.Failure? {
        return completeProject;
      }
      if projectId in projects {
        projects := projects[projectId := Completed(projects[projectId], |ids|)];
      }
      r := completeProject;
    }

    /** The store's rows and objects. */
    function State(): Store
      reads this
    {
      Store(projects, videos, transcripts, objects)
    }

    /** The per-language loop of `process_video_background`: each language runs
        `process_transcript` in order, and a failing one is skipped. */
    method RunLanguages(job: Job)
      requires job.bucket == bucket
      modifies this`objects, this`transcripts
      ensures (objects, transcripts)
              == TranscriptRuns(job.req.languages, job, job.req.videoId in videos, old(objects), old(transcripts))
    {
      var languages := job.req.languages;
      ghost var known, objects0, transcripts0 := job.req.videoId in videos, objects, transcripts;
      var i := 0;
      while i < |languages|
        invariant 0 <= i <= |languages|
        invariant known == (job.req.videoId in videos)
        invariant (objects, transcripts) == TranscriptRuns(languages[..i], job, known, objects0, transcripts0)
      {
        ghost var before := (objects, transcripts);
        var _ := ProcessTranscript(languages[i], job);
        assert (objects, transcripts) == TranscriptEffect(languages[i], job, known, before.0, before.1);
        TranscriptRunsStep(languages, i, job, known, objects0, transcripts0);
        i := i + 1;
      }
      assert languages[..i] == languages;
    }

    /** Marks the video DONE and checks its project; when one of these calls
        raises, the error handler resets the video to PENDING and swallows a
        failure of that reset. */
    method FinishVideo(req: VideoRequest, calls: StatusCalls)
      modifies this`videos, this`projects
      ensures State() == MarkedDone(old(State()), req, calls)
    {
      var marked := MarkVideo(req.videoId, Done, calls.markDone);
      var checked := Success(());
      if marked.Success? {
        checked := CheckAndUpdateProjectStatus(req.projectId, calls.findVideos, calls.completeProject);
      }
      if marked.Failure? || checked.Failure? {
        var _ := MarkVideo(req.videoId, Pending, calls.reset);
      }
    }

    /** `process_video_background`: download the video, run every language (a
        failing language is skipped), mark the video DONE and check the project. A
        failed download, like a raising status call, resets the video to PENDING. */
    method ProcessVideoBackground(req: VideoRequest, userId: string, transcribe: Transcriber,
                                  translate: Translator, persist: Persister, calls: StatusCalls)
      modifies this
      ensures State() == Background(Job(req, userId, bucket, transcribe, translate, persist, calls), old(State()))
    {
      var job := Job(req, userId, bucket, transcribe, translate, persist, calls);
      var loc := ParseS3Url(req.videoS3Url, bucket);
      if loc.Failure? || loc.value !in objects {
        var _ := MarkVideo(req.videoId, Pending, calls.reset);
        return;
      }
      RunLanguages(job);
      FinishVideo(req, calls);
    }
  }
}
