/**
 * One episode's trip through the danmu service
 * (danmu/trakt_calendar_danmu_autofetch.js, `parseEpisodeData` and
 * `processEpisode`): submit a search job, resolve its execution task, watch
 * it to the end.
 */
module Episodes {
  import opened Wrappers
  import opened Http
  import opened TraktCalendar
  import opened DanmuApi
  import opened TaskPolling

  /** Search keys in priority order: tmdb, then imdb, then tvdb, then the title. */
  function Rank(t: SearchType): nat {
    match t
    case Tmdb => 0
    case Imdb => 1
    case Tvdb => 2
    case Keyword => 3
  }

  /** The id (or, for `Keyword`, the title) a search type would use. */
  function TermFor(entry: CalendarEntry, t: SearchType): Option<string> {
    match t
    case Tmdb => entry.show.ids.tmdb
    case Imdb => entry.show.ids.imdb
    case Tvdb => entry.show.ids.tvdb
    case Keyword => Some(entry.show.originalTitle)
  }

  /** A search type is usable when its id is truthy; a title search is always usable. */
  predicate Usable(entry: CalendarEntry, t: SearchType) {
    t == Keyword || Truthy(TermFor(entry, t))
  }

  datatype EpisodeData = EpisodeData(
    showTitle: string,
    season: int,
    episode: int,
    episodeTitle: string,
    airDate: Option<int>,
    ids: Ids,
    searchType: SearchType,
    searchTerm: string)

  /**
   * `parseEpisodeData`: exactly one search type is chosen, the
   * highest-priority usable one, and the term is that id or the show's
   * original title.
   */
  function ParseEpisodeData(entry: CalendarEntry): (d: EpisodeData)
    ensures Usable(entry, d.searchType)
    ensures forall t :: Rank(t) < Rank(d.searchType) ==> !Usable(entry, t)
    ensures Some(d.searchTerm) == TermFor(entry, d.searchType)
    ensures d.showTitle == entry.show.originalTitle && d.season == entry.episode.season && d.episode == entry.episode.number
  {
    var ids := entry.show.ids;
    var t :=
      if Truthy(ids.tmdb) then Tmdb
      else if Truthy(ids.imdb) then Imdb
      else if Truthy(ids.tvdb) then Tvdb
      else Keyword;
    EpisodeData(entry.show.originalTitle, entry.episode.season, entry.episode.number,
      entry.episode.originalTitle, entry.firstAired, ids, t, TermFor(entry, t).value)
  }

  /** The search key depends only on which ids are present: a tmdb id always wins. */
  lemma TmdbWins(entry: CalendarEntry)
    requires Truthy(entry.show.ids.tmdb)
    ensures ParseEpisodeData(entry).searchType == Tmdb
    ensures ParseEpisodeData(entry).searchTerm == entry.show.ids.tmdb.value
  {
  }

  /** With no usable id the show is searched by its original title. */
  lemma KeywordFallback(entry: CalendarEntry)
    requires !Truthy(entry.show.ids.tmdb) && !Truthy(entry.show.ids.imdb) && !Truthy(entry.show.ids.tvdb)
    ensures ParseEpisodeData(entry).searchType == Keyword
    ensures ParseEpisodeData(entry).searchTerm == entry.show.originalTitle
  {
  }

  /** The scripted danmu-service answers one episode receives. */
  datatype EpisodeScript = EpisodeScript(
    submit: Reply<ImportAck>,
    lookups: Script<Reply<ExecutionLookup>>,
    statuses: Script<Reply<TaskInfo>>)

  /** One episode's run: the submission sent, the lookups and polls made, and what `processEpisode` returns. */
  datatype EpisodeRun = EpisodeRun(request: ImportRequest, lookups: nat, polls: nat, result: Option<TaskInfo>)

  function RequestFor(apiKey: string, entry: CalendarEntry): ImportRequest {
    var d := ParseEpisodeData(entry);
    ImportRequestFor(apiKey, d.searchType, d.searchTerm, d.season, d.episode)
  }

  /**
   * `processEpisode`: submission, then resolution, then watching; any failure
   * along the way yields null and stops the pipeline there. It never fails
   * itself.
   */
  function ProcessEpisode(apiKey: string, entry: CalendarEntry, script: EpisodeScript): (r: EpisodeRun)
    ensures r.request == RequestFor(apiKey, entry)
    ensures r.result.Some? <==>
      && CallDanmuAutoImport(script.submit).Ok?
      && FindExecutionTaskId(DefaultMaxRetries, script.lookups).executionTaskId.Some?
      && WaitForTaskCompletion(FindExecutionTaskId(DefaultMaxRetries, script.lookups).executionTaskId.value, script.statuses).Result().Some?
    ensures r.result.Some? ==> IsCompleted(r.result.value.status)
    ensures CallDanmuAutoImport(script.submit).Err? ==> r.lookups == 0 && r.polls == 0
    ensures r.polls > 0 ==> FindExecutionTaskId(DefaultMaxRetries, script.lookups).executionTaskId.Some?
    ensures r.lookups <= DefaultMaxRetries && r.polls <= MaxAttempts
    ensures CallDanmuAutoImport(script.submit).Ok? ==> r.lookups == FindExecutionTaskId(DefaultMaxRetries, script.lookups).lookups
    ensures var found := FindExecutionTaskId(DefaultMaxRetries, script.lookups).executionTaskId;
      r.polls == if CallDanmuAutoImport(script.submit).Ok? && found.Some? then WaitForTaskCompletion(found.value, script.statuses).polls else 0
    ensures var found := FindExecutionTaskId(DefaultMaxRetries, script.lookups).executionTaskId;
      r.result.Some? ==> found.Some? && r.result == WaitForTaskCompletion(found.value, script.statuses).Result()
  {
    var request := RequestFor(apiKey, entry);
    match CallDanmuAutoImport(script.submit)
    case Err(_) => EpisodeRun(request, 0, 0, None)
    case Ok(ack) =>
      var resolution := FindExecutionTaskId(DefaultMaxRetries, script.lookups);
      match resolution.executionTaskId
      case None => EpisodeRun(request, resolution.lookups, 0, None)
      case Some(executionTaskId) =>
        var watch := WaitForTaskCompletion(executionTaskId, script.statuses);
        EpisodeRun(request, resolution.lookups, watch.polls, watch.Result())
  }

  /** A 202 whose body is not JSON fails the episode cleanly instead of leaving it pending. */
  lemma MalformedAckFailsEpisode(apiKey: string, entry: CalendarEntry, script: EpisodeScript)
    requires script.submit.Response? && script.submit.status == 202 && script.submit.json.None?
    ensures CallDanmuAutoImportAsWritten(script.submit).Unsettled?
    ensures ProcessEpisode(apiKey, entry, script).result.None?
    ensures ProcessEpisode(apiKey, entry, script).lookups == 0
  {
  }
}
