# Danmu auto-fetch and Emby scheme links, modelled in Dafny

This project models two scripts of the ForwardWidgets repository.

**danmu/trakt_calendar_danmu_autofetch.js** runs once a day. It:
- checks its six settings (`validateConfiguration`);
- fetches today's Trakt calendar, refreshing the OAuth token pair on 401/403 and retrying up to three requests (`getTraktCalendar`, `requestTraktCalendar`, `refreshTraktToken`, `saveTokens`);
- for every episode that has already aired, submits an automatic import to a danmu server, then polls for the execution task and waits for it to complete (`parseEpisodeData`, `callDanmuAutoImport`, `findExecutionTaskId`, `getExecutionTaskId`, `waitForTaskCompletion`, `getTaskStatus`, `processEpisode`);
- reports success, failure and skip counts (`main`).

**scheme_generate/emby_scheme_generator_v2.js** turns a pasted Emby account description into import links for the Forward and SenPlayer apps. It:
- collects server lines, holding a host without a port until a port line arrives (`processUrlMatch`, `addLineFromLastHost`);
- normalises and filters them (the `reduce` in `parseEmbyInfo`, with the hand-written `parseUrl`);
- picks a main line and numbered backup lines (`processEmbyLines`);
- builds the `forward://import` and `senplayer://importserver` query links (`buildSchemeUrl` and the two generators).

The outside world is a parameter.
- Every stream of network answers is a *script*, `nat -> Reply<T>`: call `j` receives answer `j`.
- A `Reply` is either a transport error or a status, a body text and the result of `JSON.parse`. `None` means the parse throws.
- The current time is a script of millisecond values. Storage writes are booleans saying whether each write succeeds.
- Retry and polling loops are recursion on the attempt number. Their results also record how many requests and pauses were made.
- The per-show loop of `main` is a method with loop invariants.

Modules follow the scripts:
- `Wrappers`, `Text` and `Http` hold shared vocabulary.
- `DanmuConfig`, `TraktTokens`, `TraktCalendar`, `DanmuApi`, `TaskPolling`, `Episodes` and `RunCoordinator` cover the danmu script.
- `UrlParse`, `EmbyLines`, `Sequences`, `LineFilter`, `LineInfos` and `SchemeUrls` cover the scheme generator.

## Model

| member | source | states |
|---|---|---|
| DanmuConfig.EmptyFields | danmu/trakt_calendar_danmu_autofetch.js:96 | the result lists exactly the required settings that are empty |
| DanmuConfig.FirstIssue | danmu/trakt_calendar_danmu_autofetch.js:96-120 | a "missing" verdict comes exactly when some setting is empty, and it names exactly the empty settings |
| DanmuConfig.ValidateConfiguration | danmu/trakt_calendar_danmu_autofetch.js:85-123 | accepted if and only if all six settings are present, client id, client secret and API key have at least 10 characters, and the danmu base URL starts with `http` |
| TraktTokens.SaveTokens | danmu/trakt_calendar_danmu_autofetch.js:126-146 | success if and only if both tokens are non-empty and both storage writes succeed; only then does memory hold the new pair; an empty token changes nothing; the refresh token is stored only after the access token was |
| TraktTokens.RefreshTraktToken | danmu/trakt_calendar_danmu_autofetch.js:263-330 | succeeds if and only if the answer is 200 with a body carrying both tokens; the new pair is then in memory even when saving fails, and in storage when both writes succeed; any other status is reported as that status |
| Http.BodyOrUnknown | danmu/trakt_calendar_danmu_autofetch.js:377 | the error detail is never empty and is the body whenever there is one |
| TraktCalendar.RequestTraktCalendar | danmu/trakt_calendar_danmu_autofetch.js:213-257 | 401 and 403 (and only they) ask for a token refresh; 429 and 500 are API errors without refresh; other non-200 statuses are HTTP errors; a blank 200 body is an empty calendar; a non-blank 200 body succeeds exactly when it parses as an array |
| TraktCalendar.GetTraktCalendar | danmu/trakt_calendar_danmu_autofetch.js:160-199 | at most three requests, the first with the current token; every request but the last failed; a success is the last answer's calendar; a plain failure comes only after the third request; every refresh-worthy failure before the last request was followed by a successful refresh; the run aborts with an authentication failure if and only if the last request asked for a refresh and that refresh failed, and the abort carries that refresh's own error; the final token state is the chain of the refreshes made, whose access token the last request carried; at most two refreshes; one pause between consecutive requests |
| TraktCalendar.CalendarFrom | danmu/trakt_calendar_danmu_autofetch.js:168-198 | from any attempt on, at most the remaining attempts are made, the first with the token in memory, with one pause between consecutive requests |
| TraktCalendar.CalendarRefreshesSucceeded | danmu/trakt_calendar_danmu_autofetch.js:176-183 | every refresh-worthy failure before the last request was followed by a refresh that succeeded |
| TraktCalendar.CalendarAuthAbort | danmu/trakt_calendar_danmu_autofetch.js:176-187 | the run aborts with an authentication failure if and only if the last request asked for a refresh and the refresh then tried failed |
| TraktCalendar.CalendarTokens | danmu/trakt_calendar_danmu_autofetch.js:176-183 | the run ends in the state the chain of refreshes it made left, and that state's access token is the one the last request carried |
| TraktCalendar.CalendarAuthCause | danmu/trakt_calendar_danmu_autofetch.js:176-187 | an authentication abort carries the error of the refresh that failed, tried from the final token state |
| TraktCalendar.CalendarEarlierFailed | danmu/trakt_calendar_danmu_autofetch.js:168-197 | from any attempt on, a request is followed by another only when it failed |
| TraktCalendar.CalendarLastDecides | danmu/trakt_calendar_danmu_autofetch.js:168-197 | the last request decides the run: a success is its calendar, an authentication abort follows a refresh-worthy failure, any other error is the error of the third request |
| TraktCalendar.CalendarRefreshCount | danmu/trakt_calendar_danmu_autofetch.js:176-183 | the refreshes made are exactly the refresh-worthy failures among the requests sent before the last attempt |
| TraktCalendar.CalendarBearers | danmu/trakt_calendar_danmu_autofetch.js:176-183 | each retry is sent with the token the preceding refresh granted, or the previous token when there was no refresh |
| TraktCalendar.TriggersBound | danmu/trakt_calendar_danmu_autofetch.js:168-176 | refreshes happen only on the first two attempts, so there are never more than two |
| DanmuApi.ImportRequestFor | danmu/trakt_calendar_danmu_autofetch.js:337-347 | the submission carries the search type, term, season and episode, with `mediaType=tv_series` exactly for keyword searches |
| DanmuApi.CallDanmuAutoImportAsWritten | danmu/trakt_calendar_danmu_autofetch.js:357-378 | as written, the call never settles exactly when the answer is 202 with a body that is not JSON |
| DanmuApi.CallDanmuAutoImport | danmu/trakt_calendar_danmu_autofetch.js:357-378 | accepted if and only if the answer is 202 with a JSON body, which is the acknowledgement; 422 is a parameter error with the body; 401/403 an authentication error; anything else an HTTP error carrying the status (corrected submission, see ## Findings) |
| DanmuApi.CorrectedImportAgrees | danmu/trakt_calendar_danmu_autofetch.js:357-378 | the corrected call accepts and rejects exactly as the written one does, and rejects as unparseable where the written one hangs |
| DanmuApi.HtmlAckIsUnsettled | danmu/trakt_calendar_danmu_autofetch.js:365-368 | a 202 answer with an HTML error page leaves the written call pending for ever |
| DanmuApi.GetTaskStatus | danmu/trakt_calendar_danmu_autofetch.js:393-418 | the task comes back if and only if the answer is 200 with a JSON body; 404 means the task does not exist; 401/403 an authentication error; anything else an HTTP error |
| DanmuApi.GetExecutionTaskId | danmu/trakt_calendar_danmu_autofetch.js:474-499 | a 200 JSON answer yields its possibly null execution id; 422, 401/403 and other statuses give their errors |
| TaskPolling.ResolveFrom | danmu/trakt_calendar_danmu_autofetch.js:509-540 | from a given attempt on, the first lookup that yields a truthy id wins; lookups that fail or yield null are retried until the attempts run out |
| TaskPolling.FindExecutionTaskId | danmu/trakt_calendar_danmu_autofetch.js:506-543 | the id found is the first truthy one among the first ten lookups; nothing is found if and only if none of them yields one, and then all ten were made; there is one `retryDelay` pause between consecutive lookups and none after the last |
| TaskPolling.WatchFrom | danmu/trakt_calendar_danmu_autofetch.js:432-459 | polling stops at the first completed or failed status, whose task is returned; otherwise it runs until 120 polls, with a pause after every poll that did not end it |
| TaskPolling.WaitForTaskCompletion | danmu/trakt_calendar_danmu_autofetch.js:426-462 | a task is returned if and only if the first terminal status is a completed one, and it is that poll's task; a failed status ends the wait with that poll's task; it times out if and only if none of the 120 polls reaches a terminal status, and then exactly 120 polls were made; there is a pause after every poll but a terminal one |
| TaskPolling.WatchTimesOut | danmu/trakt_calendar_danmu_autofetch.js:432-459 | a wait that does not time out stopped at a terminal poll within the first 120; it times out exactly when none of them is terminal |
| Episodes.ParseEpisodeData | danmu/trakt_calendar_danmu_autofetch.js:548-586 | the search uses the first truthy id among TMDB, IMDb and TVDB, else the show title as a keyword; no higher-ranked usable id is skipped |
| Episodes.TmdbWins | danmu/trakt_calendar_danmu_autofetch.js:571-573 | a truthy TMDB id is always the search term |
| Episodes.KeywordFallback | danmu/trakt_calendar_danmu_autofetch.js:580-583 | with no truthy id the search is a keyword search for the show title |
| Episodes.ProcessEpisode | danmu/trakt_calendar_danmu_autofetch.js:589-622 | an episode yields a task if and only if the submission is accepted, an execution id is found and that task completes; the task returned is exactly the one the wait for that id returns; after an accepted submission the lookups are those of the id search, and the polls those of the wait when an id was found and none otherwise; a failed submission makes no lookups or polls (corrected submission, see ## Findings) |
| Episodes.MalformedAckFailsEpisode | danmu/trakt_calendar_danmu_autofetch.js:596-604 | a 202 acknowledgement that is not JSON fails the episode without any lookup, where the written call would hang |
| RunCoordinator.Judge | danmu/trakt_calendar_danmu_autofetch.js:652-688 | an episode is skipped if and only if it airs later than now; otherwise it is downloaded if and only if processing returns a task, which is recorded |
| RunCoordinator.SkipIgnoresDownload | danmu/trakt_calendar_danmu_autofetch.js:656-662 | a skipped episode is judged without any download being attempted |
| RunCoordinator.DownloadedMeansCompleted | danmu/trakt_calendar_danmu_autofetch.js:668-681 | with the download procedure of the loop, a downloaded episode's task has a completed status; an aired episode fails if and only if processing returns nothing |
| RunCoordinator.CountsPartition | danmu/trakt_calendar_danmu_autofetch.js:642-687 | success, failure and skip counts add up to the number of episodes |
| RunCoordinator.SuccessRate | danmu/trakt_calendar_danmu_autofetch.js:703 | the rate lies in 0..100; times the number of non-skipped episodes it is 100 times the successes; it is 100 exactly when every non-skipped episode succeeded, and 0 exactly when all were skipped or none succeeded |
| RunCoordinator.RateMonotone | danmu/trakt_calendar_danmu_autofetch.js:703 | over the same episodes, more successes give a strictly higher rate |
| RunCoordinator.ProcessAll | danmu/trakt_calendar_danmu_autofetch.js:649-704 | the report judges every episode in order with its own clock reading; its counts are those of the verdicts; the rate is the success rate; there is a pause after each non-skipped episode but the last |
| RunCoordinator.Run | danmu/trakt_calendar_danmu_autofetch.js:626-704 | a run fails if and only if the calendar fetch fails, with that error; it ends early if and only if the calendar is empty; otherwise its report describes the fetched episodes (corrected submission, see ## Findings) |
| RunCoordinator.FinishedRunsSummarise | danmu/trakt_calendar_danmu_autofetch.js:716-727 | for the report of a run over a non-empty calendar, the notice is the summary of that report's counts, never "no download tasks", and its lines are the verdicts of the episodes in order |
| Text.Trim | scheme_generate/emby_scheme_generator_v2.js:208 | trimming cuts exactly the JavaScript white space off both ends: the result is the middle of the address, starts and ends with no white space, is empty exactly for white space only, and leaves an address without white space unchanged |
| UrlParse.LineTerminatorsAgree | scheme_generate/emby_scheme_generator_v2.js:41 | the characters the fragment group may not contain are exactly the JavaScript line terminators |
| UrlParse.TakePortSound | scheme_generate/emby_scheme_generator_v2.js:41 | the port group read is all digits and, with its colon, a prefix of the input |
| UrlParse.TakeGroupSound | scheme_generate/emby_scheme_generator_v2.js:41 | a group read starts with its lead character, avoids its stop characters and is a prefix of the input |
| UrlParse.TailParseSound | scheme_generate/emby_scheme_generator_v2.js:41 | a parsed tail is well formed and spells the text it was read from |
| UrlParse.TailParseComplete | scheme_generate/emby_scheme_generator_v2.js:41 | every well-formed tail is read back from its own text |
| UrlParse.DecomposeSound | scheme_generate/emby_scheme_generator_v2.js:41-46 | every match splits the input into a protocol, a host without `/` or `:`, and a well-formed tail |
| UrlParse.DecomposeComplete | scheme_generate/emby_scheme_generator_v2.js:41-46 | every input the pattern can match is matched |
| UrlParse.DecomposeGreedy | scheme_generate/emby_scheme_generator_v2.js:41 | the host group is at least as long as the host of any other way to match |
| UrlParse.DecomposeCanonical | scheme_generate/emby_scheme_generator_v2.js:41-48 | when the tail is empty or starts with `/` or `:`, the match found is exactly that protocol, host and tail |
| UrlParse.ParseUrl | scheme_generate/emby_scheme_generator_v2.js:17-63 | an empty string gives null; a result exists if and only if the pattern matches; its fields are the groups, with an absent path read as `/` |
| UrlParse.ParseUrlFields | scheme_generate/emby_scheme_generator_v2.js:41-58 | a parsed address has protocol `http:` or `https:`, a non-empty host, and a path starting with `/` |
| EmbyLines.EndsWithPortMeans | scheme_generate/emby_scheme_generator_v2.js:92 | the `/:\d+$/` test holds if and only if some colon is followed by digits to the end |
| EmbyLines.ProcessUrlMatch | scheme_generate/emby_scheme_generator_v2.js:87-101 | an address with a port becomes a line and clears the pending host and title; one without a port is held as the pending host |
| EmbyLines.WithPort | scheme_generate/emby_scheme_generator_v2.js:105 | the held host, followed by a colon and the port when a port is given |
| EmbyLines.AddLineFromLastHost | scheme_generate/emby_scheme_generator_v2.js:103-110 | a pending host becomes a line with the given port; nothing is pending afterwards and the pending title is cleared |
| EmbyLines.Apply | scheme_generate/emby_scheme_generator_v2.js:112-190 | one step of the loop (a text line gives one step, or a flush and then an address when a label line arrives while a host is pending): a title line sets the pending title and a blank line clears it, neither touching the lines or the pending host; an address with a port, or one from a line that takes or defaults the pending title, clears that title, and any other address without a port keeps it; a new line comes only from an address with a port or from a flush (port line or label line) while a host is pending |
| EmbyLines.ApplyExtends | scheme_generate/emby_scheme_generator_v2.js:112-190 | each step keeps all lines found so far and adds at most one (a label line that flushes a pending host and names a new address with a port gives two steps, so one text line can add two) |
| EmbyLines.ReplayAccounts | scheme_generate/emby_scheme_generator_v2.js:112-190 | lines found plus the pending host never exceed the addresses seen |
| EmbyLines.Collect | scheme_generate/emby_scheme_generator_v2.js:192 | after the final flush no host or title is pending |
| EmbyLines.CollectAccounts | scheme_generate/emby_scheme_generator_v2.js:112-192 | no more lines are collected than addresses appear in the text |
| EmbyLines.ReplayMonotone | scheme_generate/emby_scheme_generator_v2.js:112-190 | the lines found in a prefix of the text are a prefix of the lines found in the whole |
| EmbyLines.AllPortedKeepsEverything | scheme_generate/emby_scheme_generator_v2.js:87-101 | when every address has a port, the lines are exactly the addresses, in order |
| LineFilter.NoWordInProtocol | scheme_generate/emby_scheme_generator_v2.js:195 | no blacklisted word can start inside an `http://` or `https://` prefix |
| LineFilter.BlacklistedWrapped | scheme_generate/emby_scheme_generator_v2.js:195 | adding a protocol or a `:443`/`:80` suffix neither creates nor removes a blacklisted word |
| LineFilter.BlacklistedIgnoresCase | scheme_generate/emby_scheme_generator_v2.js:195 | the blacklist test ignores ASCII case: lower-casing an address neither adds nor removes a blacklisted word |
| LineFilter.HasProtocolLowerCase | scheme_generate/emby_scheme_generator_v2.js:199 | the protocol test holds exactly when the address starts with the protocol the final check reads, written in lower case |
| LineFilter.ValidParts | scheme_generate/emby_scheme_generator_v2.js:197 | an address passing the final check is a protocol, a non-empty name of word characters, dots and hyphens, and an optional port of one to five digits; it holds no white space and ends with its port when it has one |
| LineFilter.FirstPort | scheme_generate/emby_scheme_generator_v2.js:198 | the port is the digit run after the leftmost colon followed by a digit; there is none if and only if no colon is followed by a digit |
| LineFilter.NormalizeUrl | scheme_generate/emby_scheme_generator_v2.js:218-235 | without a protocol, `https://` is prefixed for ports 443 and 8443 and `http://` for other ports, and `https://…:443` is used when there is no port; with a protocol, `:443` or `:80` is appended only when the address parses without a port |
| LineFilter.BareAddress | scheme_generate/emby_scheme_generator_v2.js:228-234 | a valid address with a protocol and no port always gets a default port |
| LineFilter.NormalizeLine | scheme_generate/emby_scheme_generator_v2.js:205-242 | empty and blacklisted addresses are dropped; a kept line keeps its title and its address is the normalisation of the trimmed address, which passes the check; conversely every non-empty, non-blacklisted address whose normalisation passes the check is kept |
| LineFilter.NormalizedIsFinal | scheme_generate/emby_scheme_generator_v2.js:217-239 | a normalised address that passes the check has a protocol, ends with a port and holds no white space |
| LineFilter.NormalizedNotBlacklisted | scheme_generate/emby_scheme_generator_v2.js:211-234 | normalisation never turns an allowed address into a blacklisted one |
| LineFilter.NormalizeLineFinal | scheme_generate/emby_scheme_generator_v2.js:205-242 | every kept line is final and not blacklisted |
| LineFilter.NormalizeLineIdempotent | scheme_generate/emby_scheme_generator_v2.js:205-242 | normalising a kept line again changes nothing |
| LineFilter.NormalizeLinesKeep | scheme_generate/emby_scheme_generator_v2.js:205-248 | the kept lines are exactly the normalisations of the lines that survive, in order, with their titles |
| LineFilter.NormalizeLinesIdempotent | scheme_generate/emby_scheme_generator_v2.js:205-248 | running the filter twice gives the same lines as once |
| LineFilter.ParseEmbyInfo | scheme_generate/emby_scheme_generator_v2.js:64-250 | the credentials are kept; the lines are exactly the filtered normalisation of the collected lines; every line returned has a protocol and a port, passes the check and is not blacklisted; there are no more lines than addresses |
| LineInfos.DefaultPort | scheme_generate/emby_scheme_generator_v2.js:260 | the default port is 443 or 80 |
| LineInfos.RemoveColon | scheme_generate/emby_scheme_generator_v2.js:261 | removing the first colon shortens by one character a string that has one, and leaves any other string alone |
| LineInfos.SchemeOfProtocol | scheme_generate/emby_scheme_generator_v2.js:261 | the scheme is the protocol without its trailing colon |
| LineInfos.InfoFrom | scheme_generate/emby_scheme_generator_v2.js:259-276 | the record keeps position, title and address; the port is the given one or the protocol's default; the path is dropped exactly when it is `/`; the full address is `scheme://host:port` and the path |
| LineInfos.CreateLineInfo | scheme_generate/emby_scheme_generator_v2.js:256-277 | a record exists if and only if the trimmed address parses |
| LineInfos.FullAddressReparses | scheme_generate/emby_scheme_generator_v2.js:259-276 | parsing a record's full address gives back the original parse with the port filled in |
| LineInfos.MainTitleFor | scheme_generate/emby_scheme_generator_v2.js:283-285 | the main line never keeps a generic title: `线路` and `当前线路` become `主线路`, and every other title is kept |
| LineInfos.Backups | scheme_generate/emby_scheme_generator_v2.js:288-290 | the backups are exactly the later lines that parse, in order, each recording its original position |
| LineInfos.Rename | scheme_generate/emby_scheme_generator_v2.js:291-296 | renaming changes only the title and the remembered original; a renamed record is never titled `线路`; a `线路` record gets `备用线路` followed by the decimal number, and remembers `线路`; any other record is untouched |
| LineInfos.RenameFromAt | scheme_generate/emby_scheme_generator_v2.js:287-298 | with the counter starting at any value, each record is numbered by that value plus the generic titles before it |
| LineInfos.RenameFromDistinct | scheme_generate/emby_scheme_generator_v2.js:287-298 | with the counter starting at any value, two renamed generic titles differ, because the counter only moves forward |
| LineInfos.Renamed | scheme_generate/emby_scheme_generator_v2.js:287-298 | the renaming keeps the number of records, and each record is renamed with one more than the number of generic titles before it |
| LineInfos.RenamedDistinct | scheme_generate/emby_scheme_generator_v2.js:287-298 | two renamed backups never share a title |
| LineInfos.ProcessEmbyLines | scheme_generate/emby_scheme_generator_v2.js:253-301 | there is no result if and only if there are no lines or the first does not parse; otherwise the main line sits at position 0 with a non-generic title and the parse of the first line, and the backups are the renamed later lines |
| SchemeUrls.Kept | scheme_generate/emby_scheme_generator_v2.js:305 | an entry reaches the query if and only if its value is non-empty |
| SchemeUrls.BuildSchemeUrl | scheme_generate/emby_scheme_generator_v2.js:303-310 | the link starts with the base and `?`, and has nothing after it exactly when no entry has a value |
| SchemeUrls.QueryRoundTrip | scheme_generate/emby_scheme_generator_v2.js:303-310 | reading the query back gives exactly the non-empty entries, in order, when keys hold no `=` or `&` and values no `&` |
| SchemeUrls.PresentLookup | scheme_generate/emby_scheme_generator_v2.js:304-305 | with distinct keys, a key maps to its value when the value is non-empty, and is absent otherwise |
| SchemeUrls.ReadsBack | scheme_generate/emby_scheme_generator_v2.js:303-310 | a receiver looking up a key in the built link finds its value, or nothing for an empty value |
| SchemeUrls.NumberedDistinct | scheme_generate/emby_scheme_generator_v2.js:328-332 | backups with increasing positions get pairwise distinct numbered keys |
| SchemeUrls.ProcessedIncreasing | scheme_generate/emby_scheme_generator_v2.js:287-298 | backup positions strictly increase, renaming included |
| SchemeUrls.ForwardKeys | scheme_generate/emby_scheme_generator_v2.js:317-332 | every key of the Forward object is distinct and safe in a query, so no entry overwrites another |
| SchemeUrls.SenPlayerKeys | scheme_generate/emby_scheme_generator_v2.js:342-354 | every key of the SenPlayer object is distinct and safe in a query |
| SchemeUrls.ForwardParams | scheme_generate/emby_scheme_generator_v2.js:317-332 | the Forward object holds the seven fixed entries and then, for each backup in order, `line<index>` with its address without a trailing slash and `line<index>title` with its title |
| SchemeUrls.SenPlayerParams | scheme_generate/emby_scheme_generator_v2.js:342-354 | the SenPlayer object holds the five fixed entries and then, for each backup in order, `address<index>` with its full address and `address<index>name` with its title |
| SchemeUrls.WithoutTrailingSlash | scheme_generate/emby_scheme_generator_v2.js:329 | exactly one trailing `/` is removed, and only when there is one |
| SchemeUrls.GenerateForwardSchemeUrl | scheme_generate/emby_scheme_generator_v2.js:312-335 | there is no link if and only if there is no main line; otherwise it starts with `forward://import?` |
| SchemeUrls.GenerateSenPlayerSchemeUrl | scheme_generate/emby_scheme_generator_v2.js:337-357 | there is no link if and only if there is no main line; otherwise it starts with `senplayer://importserver?` |
| SchemeUrls.ForwardCarries | scheme_generate/emby_scheme_generator_v2.js:312-335 | when no value holds `&`, reading a Forward link's query back gives exactly the parameter entries with non-empty values, in order: each key gets its value, and keys with empty values are omitted |
| SchemeUrls.SenPlayerCarries | scheme_generate/emby_scheme_generator_v2.js:337-357 | when no value holds `&`, reading a SenPlayer link's query back gives exactly the parameter entries with non-empty values, in order: each key gets its value, and keys with empty values are omitted |

## Left out

- Script start-up (`getArgs`, `initializeTokens`, lines 47-82 of the danmu script) reads the host's persistent store and argument string. The settings and stored tokens are parameters instead. The model also assumes that the host stops the script when `validateConfiguration` fails (lines 154-156), because `$.done` is expected to end it.
- `Env` (line 743 of the danmu script) is left out: the host abstraction for HTTP, storage, notifications and logging. Logging and the wording of log and notification texts are left out too; notifications are kept only as their shape (`Notify`).
- Waits (`setTimeout`) are not timed; the model counts how many happen.
- Dates are not parsed. `first_aired` is an already-parsed number of milliseconds, or none when it does not parse, and the current time is a script of readings.
- RunCoordinator.SuccessRate: the rate is an exact real. It is not rounded to one decimal by `toFixed(1)`, and the `"0.0"` string is read as 0.
- JSON parsing and `URLSearchParams` encoding are not modelled. A parsed body is given as a value or as a failure, and the submission is a record of its parameters.
- The refresh request's body and headers, the Trakt request headers and URL, and the `expires_in` log line are left out: they are only sent or logged.
- `processEpisode`'s `catch` is covered by the modelled error results. Other thrown errors cannot arise in the model.
- `parseUrl`'s first branch, which uses the platform `URL` class, is left out. The model assumes that class is absent, as in Scriptable, so the hand-written pattern always decides.
- The regular expressions that classify each text line in `parseEmbyInfo` (lines 70-190 of the scheme script) are not modelled. Their outcome is given as a sequence of steps: an address found with its title (and whether that line takes the pending title), a flush of the pending host (by a port line or a label line), a title line, or a blank line. The username and password patterns are given as their results. What the state machine does with these steps is modelled.
- `\s` and `trim` use the JavaScript white-space set on whole characters. Lengths count characters, not UTF-16 code units, which matters only outside the Basic Multilingual Plane.
- `run` (the Scriptable entry point of the scheme script) and the `download.js` file are not part of this model.
- SchemeUrls.ForwardCarries and SchemeUrls.SenPlayerCarries: values are not percent-encoded by the script, so a value containing `&` splits its entry. The read-back is proved only for values without `&`.
- The scheme script's `Object.entries` ordering is modelled as insertion order. ForwardKeys and SenPlayerKeys show that no key is repeated, and no key is integer-like, so this is the order JavaScript uses.

Where the documented behaviour of the script and its code disagree, the model follows the code:
- `getTraktCalendar` retries every error, including 404 and parse failures, until the third request. It does not give up at once on errors that are not authentication errors.
- An episode skipped because it has not aired yet is followed by no pause, since `continue` comes before the wait.

## Findings

| source | as written | input that shows it | evidently intended | confidence | as-written member | corrected member |
|---|---|---|---|---|---|---|
| danmu/trakt_calendar_danmu_autofetch.js:365-368 | on status 202 the body is passed to `JSON.parse` inside the transport callback, outside any `try`, so a body that is not JSON throws there and the returned promise neither resolves nor rejects | a 202 answer whose body is `<html>Bad Gateway</html>` | the submission is rejected as unparseable, so the episode fails and the run moves on | not executed | DanmuApi.CallDanmuAutoImportAsWritten, DanmuApi.HtmlAckIsUnsettled | DanmuApi.CallDanmuAutoImport, Episodes.MalformedAckFailsEpisode |
