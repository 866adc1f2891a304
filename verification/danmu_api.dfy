/**
 * The three single-shot calls to the danmu service in
 * danmu/trakt_calendar_danmu_autofetch.js: job submission
 * (`callDanmuAutoImport`), task status (`getTaskStatus`) and execution-id
 * lookup (`getExecutionTaskId`). Each maps one scripted reply to a value or an error.
 */
module DanmuApi {
  import opened Wrappers
  import opened Http

  datatype DanmuError =
    | Network(reason: string)
    | InvalidParams(detail: string)
    | AuthRejected
    | TaskNotFound(taskId: string)
    | HttpFailure(status: int, detail: string)
    | Unparseable

  /** How the submission names the show; `Keyword` searches by title. */
  datatype SearchType = Tmdb | Imdb | Tvdb | Keyword {
    function Name(): string {
      match this
      case Tmdb => "tmdb"
      case Imdb => "imdb"
      case Tvdb => "tvdb"
      case Keyword => "keyword"
    }
  }

  /** The query parameters of `POST /api/control/import/auto`. */
  datatype ImportRequest = ImportRequest(
    apiKey: string,
    searchType: SearchType,
    searchTerm: string,
    season: int,
    episode: int,
    mediaType: Option<string>)

  /** `mediaType=tv_series` is added exactly for keyword searches. */
  function ImportRequestFor(apiKey: string, t: SearchType, term: string, season: int, episode: int): (q: ImportRequest)
    ensures q.searchType == t && q.searchTerm == term && q.season == season && q.episode == episode
    ensures q.mediaType.Some? <==> t == Keyword
    ensures q.mediaType.Some? ==> q.mediaType.value == "tv_series"
  {
    ImportRequest(apiKey, t, term, season, episode, if t == Keyword then Some("tv_series") else None)
  }

  /** The body of an accepted submission. */
  datatype ImportAck = ImportAck(taskId: string, message: string)

  /** What a submission call does to the caller awaiting it. */
  datatype Submission = Accepted(ack: ImportAck) | Rejected(error: DanmuError) | Unsettled

  /**
   * `callDanmuAutoImport` as written: on 202 the body is parsed outside any
   * `try`, inside the transport callback, so a body that is not JSON throws
   * there and the returned promise neither resolves nor rejects.
   */
  function CallDanmuAutoImportAsWritten(reply: Reply<ImportAck>): (r: Submission)
    ensures r.Unsettled? <==> reply.Response? && reply.status == 202 && reply.json.None?
  {
    match reply
    case NetError(reason) => Rejected(Network(reason))
    case Response(status, text, json) =>
      if status == 202 then (if json.Some? then Accepted(json.value) else Unsettled)
      else if status == 422 then Rejected(InvalidParams(text))
      else if status == 401 || status == 403 then Rejected(AuthRejected)
      else Rejected(HttpFailure(status, BodyOrUnknown(text)))
  }

  /**
   * `callDanmuAutoImport` with the parse failure of a 202 body turned into a
   * rejection, like the other calls do: 202 is the only success, 422 is a
   * parameter error, 401/403 an authentication error, anything else a generic
   * failure carrying the body. The submission is never retried.
   */
  function CallDanmuAutoImport(reply: Reply<ImportAck>): (r: Result<ImportAck, DanmuError>)
    ensures r.Ok? <==> reply.Response? && reply.status == 202 && reply.json.Some?
    ensures r.Ok? ==> r.value == reply.json.value
    ensures reply.Response? && reply.status == 422 ==> r == Err(InvalidParams(reply.text))
    ensures reply.Response? && reply.status in {401, 403} ==> r == Err(AuthRejected)
    ensures reply.Response? && reply.status !in {202, 401, 403, 422} ==> r == Err(HttpFailure(reply.status, BodyOrUnknown(reply.text)))
  {
    match reply
    case NetError(reason) => Err(Network(reason))
    case Response(status, text, json) =>
      if status == 202 then (if json.Some? then Ok(json.value) else Err(Unparseable))
      else if status == 422 then Err(InvalidParams(text))
      else if status == 401 || status == 403 then Err(AuthRejected)
      else Err(HttpFailure(status, BodyOrUnknown(text)))
  }

  /** The corrected call agrees with the code as written wherever the code settles. */
  lemma CorrectedImportAgrees(reply: Reply<ImportAck>)
    ensures CallDanmuAutoImportAsWritten(reply).Accepted? <==> CallDanmuAutoImport(reply).Ok?
    ensures CallDanmuAutoImport(reply).Ok? ==> CallDanmuAutoImportAsWritten(reply) == Accepted(CallDanmuAutoImport(reply).value)
    ensures CallDanmuAutoImportAsWritten(reply).Rejected? ==> CallDanmuAutoImport(reply) == Err(CallDanmuAutoImportAsWritten(reply).error)
    ensures CallDanmuAutoImportAsWritten(reply).Unsettled? ==> CallDanmuAutoImport(reply) == Err(Unparseable)
  {
  }

  /** A 202 whose body is an HTML error page leaves the submission unsettled as written. */
  lemma HtmlAckIsUnsettled()
    ensures CallDanmuAutoImportAsWritten(Response(202, "<html>Bad Gateway</html>", None)) == Unsettled
    ensures CallDanmuAutoImport(Response(202, "<html>Bad Gateway</html>", None)) == Err(Unparseable)
  {
  }

  /** One poll of a task: `progress` is a percentage. */
  datatype TaskInfo = TaskInfo(title: string, status: string, progress: int, description: string)

  /**
   * `getTaskStatus`: 200 yields the parsed task, 404 says the task does not
   * exist, 401/403 is an authentication error, anything else a generic failure.
   */
  function GetTaskStatus(taskId: string, reply: Reply<TaskInfo>): (r: Result<TaskInfo, DanmuError>)
    ensures r.Ok? <==> reply.Response? && reply.status == 200 && reply.json.Some?
    ensures r.Ok? ==> r.value == reply.json.value
    ensures reply.Response? && reply.status == 404 ==> r == Err(TaskNotFound(taskId))
    ensures reply.Response? && reply.status in {401, 403} ==> r == Err(AuthRejected)
    ensures reply.Response? && reply.status !in {200, 401, 403, 404} ==> r == Err(HttpFailure(reply.status, BodyOrUnknown(reply.text)))
  {
    match reply
    case NetError(reason) => Err(Network(reason))
    case Response(status, text, json) =>
      if status == 200 then (if json.Some? then Ok(json.value) else Err(Unparseable))
      else if status == 404 then Err(TaskNotFound(taskId))
      else if status == 401 || status == 403 then Err(AuthRejected)
      else Err(HttpFailure(status, BodyOrUnknown(text)))
  }

  /** The body of the execution-id lookup; the id may be null. */
  datatype ExecutionLookup = ExecutionLookup(executionTaskId: Option<string>)

  /** A JavaScript-truthy id: present and not the empty string. */
  predicate Truthy(id: Option<string>) {
    id.Some? && id.value != ""
  }

  /**
   * `getExecutionTaskId`: 200 yields the (possibly null) execution id, 422 is
   * a parameter error, 401/403 an authentication error, anything else a
   * generic failure.
   */
  function GetExecutionTaskId(reply: Reply<ExecutionLookup>): (r: Result<Option<string>, DanmuError>)
    ensures r.Ok? <==> reply.Response? && reply.status == 200 && reply.json.Some?
    ensures r.Ok? ==> r.value == reply.json.value.executionTaskId
    ensures reply.Response? && reply.status == 422 ==> r == Err(InvalidParams(reply.text))
    ensures reply.Response? && reply.status in {401, 403} ==> r == Err(AuthRejected)
    ensures reply.Response? && reply.status !in {200, 401, 403, 422} ==> r == Err(HttpFailure(reply.status, BodyOrUnknown(reply.text)))
  {
    match reply
    case NetError(reason) => Err(Network(reason))
    case Response(status, text, json) =>
      if status == 200 then (if json.Some? then Ok(json.value.executionTaskId) else Err(Unparseable))
      else if status == 422 then Err(InvalidParams(text))
      else if status == 401 || status == 403 then Err(AuthRejected)
      else Err(HttpFailure(status, BodyOrUnknown(text)))
  }
}
