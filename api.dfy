/**
 * The upload endpoint of backend/api.py: validation of the uploaded file, a temporary copy for
 * the pipeline, the mapping of failures to HTTP statuses, and the removal of the copy.
 */
module Api {
  import opened Wrappers
  import opened Text
  import Files
  import Pipeline
  import Extractor
  import GitHub

  /** The endpoint's answer: the portfolio dictionary, or an `HTTPException`. */
  datatype Response =
    | Ok(body: map<string, Pipeline.Value>)
    | HttpError(status: int, detail: string)

  const MaxSize := 10 * 1024 * 1024
  const NotPdfMessage := "Only PDF files are supported."
  const TooLargeMessage := "File too large. Max 10MB."
  const ParsingFailedPrefix := "Parsing failed: "

  /** Lines 49-56: the refusal of an upload, if any; the file type is checked first. */
  function Rejection(filename: string, size: nat): (r: Option<Response>)
    ensures !EndsWith(filename, ".pdf") ==> r == Some(HttpError(400, NotPdfMessage))
    ensures EndsWith(filename, ".pdf") ==> (r.Some? <==> size > MaxSize)
    ensures r.Some? ==> r.value.HttpError? && r.value.status == 400
  {
    if !EndsWith(filename, ".pdf") then Some(HttpError(400, NotPdfMessage))
    else if size > MaxSize then Some(HttpError(400, TooLargeMessage))
    else None
  }

  /** Lines 70-74: ValueError is the client's fault (422), anything else the server's (500). */
  function ErrorResponse(e: Exception): (r: Response)
    ensures r.HttpError?
    ensures e.ValueError? <==> r.status == 422
    ensures e.ValueError? ==> r.detail == e.message
    ensures !e.ValueError? ==> r.status == 500 && r.detail == ParsingFailedPrefix + e.message
  {
    if e.ValueError? then HttpError(422, e.message) else HttpError(500, ParsingFailedPrefix + e.message)
  }

  /** Line 66: an empty username is passed on as None. */
  function UsernameArg(githubUsername: string): (r: Option<string>)
    ensures r.None? <==> githubUsername == ""
    ensures r.Some? ==> r.value == githubUsername
  {
    if githubUsername == "" then None else Some(githubUsername)
  }

  /** What `parse_resume` answers, for a pipeline with the given extractor and token. */
  function ParseResumeResult(
    filename: string, contents: seq<Files.byte>, githubUsername: string,
    extractor: Extractor.ResumeExtractor, token: string,
    files: map<string, seq<Files.byte>>, tmpPath: string, readers: Pipeline.PdfReaders,
    llm: Extractor.LlmServices, parse: Extractor.JsonParser, api: GitHub.GitHubApi): (r: Response)
    ensures Rejection(filename, |contents|).Some? ==> r == Rejection(filename, |contents|).value
    ensures r.HttpError? && r.status == 400 <==> Rejection(filename, |contents|).Some?
    ensures r.HttpError? ==> r.status in {400, 422, 500}
    ensures r.Ok? ==> r.body.Keys == {"resume", "github"}
    ensures Rejection(filename, |contents|).None? ==>
      var run := Pipeline.RunResult(
        extractor, token, tmpPath, UsernameArg(githubUsername), files[tmpPath := contents],
        readers, llm, parse, api);
      && (run.Failure? ==> r == ErrorResponse(run.error))
      && (run.Success? ==> r == Ok(Pipeline.ToDict(run.value)))
  {
    match Rejection(filename, |contents|)
    case Some(refused) => refused
    case None =>
      match Pipeline.RunResult(
        extractor, token, tmpPath, UsernameArg(githubUsername), files[tmpPath := contents],
        readers, llm, parse, api)
      case Success(data) => Ok(Pipeline.ToDict(data))
      case Failure(e) => ErrorResponse(e)
  }

  /** An upload of exactly 10 MiB is not refused for its size. */
  lemma ExactLimitAccepted(filename: string, contents: seq<Files.byte>)
    requires EndsWith(filename, ".pdf") && |contents| == MaxSize
    ensures Rejection(filename, |contents|) == None
  {
  }

  /**
   * `parse_resume`: a refused upload touches no file; otherwise the contents are written to a
   * fresh temporary file for the pipeline, and that file is removed whatever the outcome.
   */
  method ParseResume(
    filename: string, contents: seq<Files.byte>, githubUsername: string,
    pipeline: Pipeline.ResumePipeline, fs: Files.FileSystem, tmpPath: string,
    readers: Pipeline.PdfReaders, llm: Extractor.LlmServices, parse: Extractor.JsonParser,
    api: GitHub.GitHubApi)
    returns (response: Response)
    requires tmpPath !in fs.files
    modifies fs
    ensures fs.files == old(fs.files)
    ensures response == ParseResumeResult(
      filename, contents, githubUsername, pipeline.extractor, pipeline.enricher.token,
      old(fs.files), tmpPath, readers, llm, parse, api)
  {
    if !EndsWith(filename, ".pdf") {
      return HttpError(400, NotPdfMessage);
    }
    if |contents| > MaxSize {
      return HttpError(400, TooLargeMessage);
    }
    fs.Write(tmpPath, contents);
    var result := pipeline.Run(tmpPath, UsernameArg(githubUsername), fs, readers, llm, parse, api);
    match result {
      case Success(data) =>
        response := Ok(Pipeline.ToDict(data));
      case Failure(e) =>
        response := ErrorResponse(e);
    }
    fs.Unlink(tmpPath);
    Files.WriteThenUnlink(old(fs.files), tmpPath, contents);
  }
}
