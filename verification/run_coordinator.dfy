/**
 * The run coordinator, `main` in danmu/trakt_calendar_danmu_autofetch.js:
 * fetch the calendar once, then take the episodes in order, skipping those
 * not yet aired, and report success/fail/skip counts and the success rate.
 */
module RunCoordinator {
  import opened Wrappers
  import opened Http
  import opened TraktTokens
  import opened TraktCalendar
  import opened DanmuApi
  import opened TaskPolling
  import opened Episodes

  /** What happened to one episode, in the order the episodes were taken. */
  datatype Verdict = Downloaded(info: TaskInfo) | DownloadFailed | NotYetAired

  /** `currentTime < airTime`; an unparseable air time never compares as later. */
  predicate Unaired(entry: CalendarEntry, now: int) {
    entry.firstAired.Some? && now < entry.firstAired.value
  }

  /**
   * The verdict for one episode, given the clock reading when it is reached
   * and the download procedure, which is consulted only for aired episodes.
   */
  function Judge(entry: CalendarEntry, now: int, script: EpisodeScript,
                 download: (CalendarEntry, EpisodeScript) -> Option<TaskInfo>): (v: Verdict)
    ensures v.NotYetAired? <==> Unaired(entry, now)
    ensures v.Downloaded? <==> !Unaired(entry, now) && download(entry, script).Some?
    ensures v.Downloaded? ==> Some(v.info) == download(entry, script)
  {
    if Unaired(entry, now) then NotYetAired
    else match download(entry, script)
      case Some(info) => Downloaded(info)
      case None => DownloadFailed
  }

  /** `processEpisode` for one key, as the download procedure of the loop. */
  function Download(apiKey: string): (download: (CalendarEntry, EpisodeScript) -> Option<TaskInfo>)
  {
    (entry, script) => ProcessEpisode(apiKey, entry, script).result
  }

  function CountDownloaded(vs: seq<Verdict>): nat {
    if vs == [] then 0 else CountDownloaded(vs[..|vs| - 1]) + (if vs[|vs| - 1].Downloaded? then 1 else 0)
  }

  function CountFailed(vs: seq<Verdict>): nat {
    if vs == [] then 0 else CountFailed(vs[..|vs| - 1]) + (if vs[|vs| - 1].DownloadFailed? then 1 else 0)
  }

  function CountSkipped(vs: seq<Verdict>): nat {
    if vs == [] then 0 else CountSkipped(vs[..|vs| - 1]) + (if vs[|vs| - 1].NotYetAired? then 1 else 0)
  }

  /** Every verdict is exactly one of the three kinds, so the counts add up to the number of episodes. */
  lemma {:induction false} CountsPartition(vs: seq<Verdict>)
    ensures CountDownloaded(vs) + CountFailed(vs) + CountSkipped(vs) == |vs|
  {
    if vs != [] {
      CountsPartition(vs[..|vs| - 1]);
    }
  }

  /**
   * `successRate`: successes over the episodes actually processed, as a
   * percentage, or 0 when every episode was skipped (rounding to one decimal
   * is left out).
   */
  function SuccessRate(success: nat, total: nat, skipped: nat): (rate: real)
    requires success + skipped <= total
    ensures 0.0 <= rate <= 100.0
    ensures rate == 100.0 <==> total > skipped && success == total - skipped
    ensures rate == 0.0 <==> total == skipped || success == 0
    ensures total > skipped ==> rate * (total - skipped) as real == 100.0 * success as real
  {
    if total > skipped then (success as real / (total - skipped) as real) * 100.0 else 0.0
  }

  datatype Report = Report(
    success: nat,
    failed: nat,
    skipped: nat,
    total: nat,
    successRate: real,
    verdicts: seq<Verdict>,
    pausedAfter: seq<bool>)

  datatype RunOutcome =
    | CalendarFailed(error: CalendarError)
    | NoEpisodesToday
    | Finished(report: Report)

  /** The report describes the verdicts of `shows` in order, with the pause rule and the counts. */
  ghost predicate Describes(rep: Report, shows: seq<CalendarEntry>, clock: Script<int>, episodes: Script<EpisodeScript>,
                           download: (CalendarEntry, EpisodeScript) -> Option<TaskInfo>) {
    && rep.total == |shows| == |rep.verdicts| == |rep.pausedAfter|
    && (forall i :: 0 <= i < |shows| ==> rep.verdicts[i] == Judge(shows[i], clock(i), episodes(i), download))
    && rep.success == CountDownloaded(rep.verdicts)
    && rep.failed == CountFailed(rep.verdicts)
    && rep.skipped == CountSkipped(rep.verdicts)
    && rep.success + rep.failed + rep.skipped == rep.total
    && rep.successRate == SuccessRate(rep.success, rep.total, rep.skipped)
    && (forall i :: 0 <= i < |shows| ==>
          (rep.pausedAfter[i] <==> i < |shows| - 1 && !rep.verdicts[i].NotYetAired?))
  }

  /**
   * The episode loop of `main`: every episode gets exactly one verdict in
   * order, unaired ones are skipped without any call, the 2 s pause follows
   * each processed episode except the last one, and the counts and success
   * rate summarise the verdicts.
   */
  method ProcessAll(shows: seq<CalendarEntry>, clock: Script<int>, episodes: Script<EpisodeScript>,
                    download: (CalendarEntry, EpisodeScript) -> Option<TaskInfo>)
    returns (rep: Report)
    ensures Describes(rep, shows, clock, episodes, download)
  {
    var success, failed, skipped := 0, 0, 0;
    var verdicts: seq<Verdict> := [];
    var paused: seq<bool> := [];
    var i := 0;
    while i < |shows|
      invariant 0 <= i <= |shows|
      invariant |verdicts| == i && |paused| == i
      invariant forall j :: 0 <= j < i ==> verdicts[j] == Judge(shows[j], clock(j), episodes(j), download)
      invariant forall j :: 0 <= j < i ==> (paused[j] <==> j < |shows| - 1 && !verdicts[j].NotYetAired?)
      invariant success == CountDownloaded(verdicts)
      invariant failed == CountFailed(verdicts)
      invariant skipped == CountSkipped(verdicts)
    {
      var v := Judge(shows[i], clock(i), episodes(i), download);
      match v {
        case NotYetAired => skipped := skipped + 1;
        case Downloaded(_) => success := success + 1;
        case DownloadFailed => failed := failed + 1;
      }
      assert (verdicts + [v])[..i] == verdicts;
      verdicts := verdicts + [v];
      paused := paused + [!v.NotYetAired? && i < |shows| - 1];
      i := i + 1;
    }
    CountsPartition(verdicts);
    var rate := SuccessRate(success, |shows|, skipped);
    rep := Report(success, failed, skipped, |shows|, rate, verdicts, paused);
  }

  /**
   * `main`: a failed calendar fetch ends the run with one error notice; an
   * empty calendar ends it with "no updates"; otherwise the episode loop runs
   * over the fetched calendar.
   */
  method Run(
    apiKey: string,
    tokens: TokenState,
    calendar: Script<Reply<CalendarBody>>,
    refreshes: Script<RefreshScript>,
    clock: Script<int>,
    episodes: Script<EpisodeScript>)
    returns (out: RunOutcome)
    ensures var fetched := GetTraktCalendar(tokens, calendar, refreshes).result;
      && (out.CalendarFailed? <==> fetched.Err?)
      && (out.CalendarFailed? ==> out.error == fetched.error)
      && (out.NoEpisodesToday? <==> fetched == Ok([]))
      && (out.Finished? ==>
            fetched.Ok? && |fetched.value| > 0 && Describes(out.report, fetched.value, clock, episodes, Download(apiKey)))
    ensures out.Finished? ==> Notify(out.report).Summary?
  {
    var fetched := GetTraktCalendar(tokens, calendar, refreshes).result;
    if fetched.Err? {
      return CalendarFailed(fetched.error);
    }
    if |fetched.value| == 0 {
      return NoEpisodesToday;
    }
    var rep := ProcessAll(fetched.value, clock, episodes, Download(apiKey));
    FinishedRunsSummarise(rep, fetched.value, clock, episodes, Download(apiKey));
    out := Finished(rep);
  }

  /** An unaired episode is skipped whatever the download procedure would do: no request is made for it. */
  lemma SkipIgnoresDownload(entry: CalendarEntry, now: int, script: EpisodeScript,
                            d1: (CalendarEntry, EpisodeScript) -> Option<TaskInfo>,
                            d2: (CalendarEntry, EpisodeScript) -> Option<TaskInfo>)
    requires Unaired(entry, now)
    ensures Judge(entry, now, script, d1) == Judge(entry, now, script, d2) == NotYetAired
  {
  }

  /** An episode counts as a success only when its danmu task reached a completed status. */
  lemma DownloadedMeansCompleted(apiKey: string, entry: CalendarEntry, now: int, script: EpisodeScript)
    ensures var v := Judge(entry, now, script, Download(apiKey));
      v.Downloaded? ==> IsCompleted(v.info.status)
    ensures Judge(entry, now, script, Download(apiKey)).DownloadFailed? <==>
      !Unaired(entry, now) && ProcessEpisode(apiKey, entry, script).result.None?
  {
  }

  lemma ProductNonNegative(a: real, b: real)
    requires a >= 0.0 && b >= 0.0
    ensures a * b >= 0.0
  {
  }

  /** With the same episodes processed, more successes give a strictly higher rate. */
  lemma RateMonotone(s1: nat, s2: nat, total: nat, skipped: nat)
    requires s1 < s2 && s2 + skipped <= total
    ensures SuccessRate(s1, total, skipped) < SuccessRate(s2, total, skipped)
  {
    var d := (total - skipped) as real;
    var r1 := SuccessRate(s1, total, skipped);
    var r2 := SuccessRate(s2, total, skipped);
    assert r1 * d == 100.0 * s1 as real && r2 * d == 100.0 * s2 as real;
    if r1 >= r2 {
      assert (r1 - r2) * d == r1 * d - r2 * d;
      ProductNonNegative(r1 - r2, d);
      assert false;
    }
  }

  /** The per-run notice: a summary whenever any episode produced a line, else "no download tasks". */
  datatype Notice = Summary(success: nat, failed: nat, skipped: nat, lines: seq<Verdict>) | NoDownloadTasks

  function Notify(rep: Report): Notice {
    if |rep.verdicts| > 0 then Summary(rep.success, rep.failed, rep.skipped, rep.verdicts) else NoDownloadTasks
  }

  /**
   * A report that describes a non-empty calendar has a line per episode, so
   * the notice is the summary of its counts and the "no download tasks"
   * notice cannot follow a finished run.
   */
  lemma FinishedRunsSummarise(rep: Report, shows: seq<CalendarEntry>, clock: Script<int>, episodes: Script<EpisodeScript>,
                              download: (CalendarEntry, EpisodeScript) -> Option<TaskInfo>)
    requires Describes(rep, shows, clock, episodes, download) && |shows| > 0
    ensures Notify(rep) == Summary(rep.success, rep.failed, rep.skipped, rep.verdicts)
    ensures |Notify(rep).lines| == |shows|
    ensures forall i :: 0 <= i < |shows| ==> Notify(rep).lines[i] == Judge(shows[i], clock(i), episodes(i), download)
  {
  }
}
