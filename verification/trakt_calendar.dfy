/**
 * Fetching today's episodes from the Trakt calendar
 * (danmu/trakt_calendar_danmu_autofetch.js, `requestTraktCalendar` and the
 * retry loop of `getTraktCalendar`).
 */
module TraktCalendar {
  import opened Wrappers
  import opened Http
  import opened TraktTokens

  /** External ids of a show; an id that is missing, null, 0 or empty is `None`. */
  datatype Ids = Ids(trakt: Option<string>, tmdb: Option<string>, imdb: Option<string>, tvdb: Option<string>)

  datatype ShowInfo = ShowInfo(originalTitle: string, ids: Ids)

  datatype EpisodeInfo = EpisodeInfo(season: int, number: int, originalTitle: string)

  /**
   * One calendar entry. `firstAired` is the air time in milliseconds, `None`
   * when the date text does not parse (JavaScript then compares against NaN).
   */
  datatype CalendarEntry = CalendarEntry(show: ShowInfo, episode: EpisodeInfo, firstAired: Option<int>)

  /** The parsed calendar body: a JSON array of entries, or any other JSON value. */
  datatype CalendarBody = Entries(entries: seq<CalendarEntry>) | NotAnArray

  datatype CalendarError =
    | CalendarNetwork(reason: string)
    | ApiRejected(status: int, needsTokenRefresh: bool)
    | HttpStatus(status: int)
    | Unparseable
    | AuthFailed(cause: RefreshError)

  predicate NeedsRefresh(e: CalendarError) {
    e.ApiRejected? && e.needsTokenRefresh
  }

  /**
   * `requestTraktCalendar`: 401/403 ask for a token refresh, 429/500 are
   * rejected without one, any other non-200 status is a plain HTTP error; a
   * 200 with a blank body is an empty list and a 200 whose body is not a JSON
   * array is a parse error.
   */
  function RequestTraktCalendar(reply: Reply<CalendarBody>): (r: Result<seq<CalendarEntry>, CalendarError>)
    ensures r.Err? && NeedsRefresh(r.error) <==> reply.Response? && reply.status in {401, 403}
    ensures reply.Response? && reply.status in {429, 500} ==> r == Err(ApiRejected(reply.status, false))
    ensures reply.Response? && reply.status !in {200, 401, 403, 429, 500} ==> r == Err(HttpStatus(reply.status))
    ensures r.Ok? ==> reply.Response? && reply.status == 200
    ensures reply.Response? && reply.status == 200 && Blank(reply.text) ==> r == Ok([])
    ensures reply.Response? && reply.status == 200 && !Blank(reply.text) ==>
      (r.Ok? <==> reply.json.Some? && reply.json.value.Entries?)
    ensures r.Ok? && r.value != [] ==> reply.json == Some(Entries(r.value))
    ensures reply.NetError? ==> r == Err(CalendarNetwork(reply.reason))
  {
    match reply
    case NetError(reason) => Err(CalendarNetwork(reason))
    case Response(status, text, json) =>
      if status == 401 || status == 403 then Err(ApiRejected(status, true))
      else if status == 429 || status == 500 then Err(ApiRejected(status, false))
      else if status != 200 then Err(HttpStatus(status))
      else if Blank(text) then Ok([])
      else match json
        case Some(Entries(es)) => Ok(es)
        case _ => Err(Unparseable)
  }

  /** `config.maxRetries`: the request is made at most `MaxRetries + 1` times. */
  const MaxRetries: nat := 2
  const Attempts: nat := MaxRetries + 1

  /**
   * One run of the retry loop. `bearers[j]` is the access token sent with the
   * j-th request (so `|bearers|` is the number of requests), `refreshes` the
   * number of token refreshes attempted and `waits` the number of
   * `retryDelay` pauses.
   */
  datatype CalendarRun = CalendarRun(
    result: Result<seq<CalendarEntry>, CalendarError>,
    tokens: TokenState,
    bearers: seq<string>,
    refreshes: nat,
    waits: nat)


  /** What each attempt's answer means, attempt by attempt. */
  type Outcomes = nat -> Result<seq<CalendarEntry>, CalendarError>

  /** A token refresh from a given state, consuming the `m`-th scripted refresh. */
  type Refresher = (TokenState, nat) -> Result<TokenState, RefreshError>

  /** The classification of the scripted answers: attempt `n` gets `Classify(replies)(n)`. */
  function Classify(replies: Script<Reply<CalendarBody>>): Outcomes {
    (n: nat) => RequestTraktCalendar(replies(n))
  }

  /** `refreshTraktToken` against the scripted refresh answers. */
  function RefreshWith(refreshes: Script<RefreshScript>): Refresher {
    (s: TokenState, m: nat) => RefreshTraktToken(s, refreshes(m))
  }

  /** The access token a successful refresh installs. */
  function GrantedAccess(script: RefreshScript): string {
    if script.reply.Response? && script.reply.json.Some? then script.reply.json.value.accessToken else ""
  }

  function Granted(refreshes: Script<RefreshScript>): nat -> string {
    (m: nat) => GrantedAccess(refreshes(m))
  }

  /** Every successful refresh number `m` installs the access token `granted(m)`. */
  ghost predicate Installs(refresh: Refresher, granted: nat -> string) {
    forall s: TokenState, m: nat :: refresh(s, m).Ok? ==> refresh(s, m).value.memory.accessToken == granted(m)
  }

  lemma RefreshWithInstalls(refreshes: Script<RefreshScript>)
    ensures Installs(RefreshWith(refreshes), Granted(refreshes))
  {
    forall s: TokenState, m: nat | RefreshWith(refreshes)(s, m).Ok?
      ensures RefreshWith(refreshes)(s, m).value.memory.accessToken == Granted(refreshes)(m)
    {
      var r := RefreshTraktToken(s, refreshes(m));
      assert RefreshWith(refreshes)(s, m) == r && Granted(refreshes)(m) == GrantedAccess(refreshes(m));
      var c :| Grants(refreshes(m).reply, c);
      assert r.value.memory == c && c.accessToken == GrantedAccess(refreshes(m));
    }
  }

  /** Attempt `n` (0-based) fails with a refresh-asking error and is not the final attempt. */
  predicate Refreshing(outcome: Outcomes, n: nat) {
    n < MaxRetries && outcome(n).Err? && NeedsRefresh(outcome(n).error)
  }

  /** Authentication failures come only from a failed refresh, never from classifying an answer. */
  ghost predicate NoAuthFailures(outcome: Outcomes) {
    forall n: nat :: outcome(n).Err? ==> !outcome(n).error.AuthFailed?
  }

  lemma ClassifyNoAuthFailures(replies: Script<Reply<CalendarBody>>)
    ensures NoAuthFailures(Classify(replies))
  {
    forall n: nat | Classify(replies)(n).Err?
      ensures !Classify(replies)(n).error.AuthFailed?
    {
      match replies(n)
      case NetError(_) =>
      case Response(_, _, _) =>
    }
  }

  /** Whether refresh number `m` succeeds is `ok(m)`, whatever state it starts from. */
  ghost predicate SucceedsBy(refresh: Refresher, ok: nat -> bool) {
    forall s: TokenState, m: nat :: refresh(s, m).Ok? <==> ok(m)
  }

  function Succeeds(refreshes: Script<RefreshScript>): nat -> bool {
    (m: nat) => RefreshSucceeds(refreshes(m))
  }

  lemma RefreshWithSucceeds(refreshes: Script<RefreshScript>)
    ensures SucceedsBy(RefreshWith(refreshes), Succeeds(refreshes))
  {
    forall s: TokenState, m: nat
      ensures RefreshWith(refreshes)(s, m).Ok? <==> Succeeds(refreshes)(m)
    {
      assert RefreshWith(refreshes)(s, m) == RefreshTraktToken(s, refreshes(m));
      assert Succeeds(refreshes)(m) == RefreshSucceeds(refreshes(m));
    }
  }

  /**
   * The token state after the refreshes numbered `k` to `k + n - 1`, each
   * starting from the state the previous one left; a failed refresh leaves
   * the state as it was and ends the chain.
   */
  function Chain(st: TokenState, refresh: Refresher, k: nat, n: nat): TokenState
    decreases n
  {
    if n == 0 then st
    else match refresh(st, k)
      case Ok(st') => Chain(st', refresh, k + 1, n - 1)
      case Err(_) => st
  }

  /** Number of attempts in `[lo, hi)` that trigger a refresh. */
  function Triggers(outcome: Outcomes, lo: nat, hi: nat): nat
    decreases hi - lo
  {
    if lo >= hi then 0
    else (if Refreshing(outcome, lo) then 1 else 0) + Triggers(outcome, lo + 1, hi)
  }

  /**
   * Attempt number `i + 1` of `getTraktCalendar`, with `k` refreshes already
   * consumed; the loop is written as recursion on the attempt number.
   */
  function CalendarFrom(i: nat, st: TokenState, outcome: Outcomes, refresh: Refresher, k: nat): (r: CalendarRun)
    requires i < Attempts
    ensures 1 <= |r.bearers| <= Attempts - i
    ensures r.bearers[0] == st.memory.accessToken
    ensures r.waits == |r.bearers| - 1
    decreases Attempts - i
  {
    var bearer := st.memory.accessToken;
    match outcome(i)
    case Ok(shows) => CalendarRun(Ok(shows), st, [bearer], 0, 0)
    case Err(e) =>
      var isLastAttempt := i + 1 > MaxRetries;
      if NeedsRefresh(e) && !isLastAttempt then
        match refresh(st, k)
        case Err(cause) => CalendarRun(Err(AuthFailed(cause)), st, [bearer], 1, 0)
        case Ok(st') =>
          var rest := CalendarFrom(i + 1, st', outcome, refresh, k + 1);
          CalendarRun(rest.result, rest.tokens, [bearer] + rest.bearers, rest.refreshes + 1, rest.waits + 1)
      else if isLastAttempt then CalendarRun(Err(e), st, [bearer], 0, 0)
      else
        var rest := CalendarFrom(i + 1, st, outcome, refresh, k);
        CalendarRun(rest.result, rest.tokens, [bearer] + rest.bearers, rest.refreshes, rest.waits + 1)
  }

  /** Every request of a run except the last one failed. */
  lemma {:induction false} CalendarEarlierFailed(i: nat, st: TokenState, outcome: Outcomes, refresh: Refresher, k: nat)
    requires i < Attempts
    ensures var r := CalendarFrom(i, st, outcome, refresh, k);
      forall n :: i <= n < i + |r.bearers| - 1 ==> outcome(n).Err?
    decreases Attempts - i
  {
    match outcome(i)
    case Ok(_) =>
    case Err(e) =>
      if NeedsRefresh(e) && i + 1 <= MaxRetries {
        match refresh(st, k)
        case Err(_) =>
        case Ok(st') => CalendarEarlierFailed(i + 1, st', outcome, refresh, k + 1);
      } else if i + 1 <= MaxRetries {
        CalendarEarlierFailed(i + 1, st, outcome, refresh, k);
      }
  }

  /**
   * The last request decides the run: its success is returned; an
   * authentication abort follows a refresh-asking failure before the final
   * attempt; any other error is the final attempt's own error.
   */
  lemma {:induction false} CalendarLastDecides(i: nat, st: TokenState, outcome: Outcomes, refresh: Refresher, k: nat)
    requires i < Attempts
    requires NoAuthFailures(outcome)
    ensures var r := CalendarFrom(i, st, outcome, refresh, k);
      var last := i + |r.bearers| - 1;
      && (r.result.Ok? ==> outcome(last) == r.result)
      && (r.result.Err? && r.result.error.AuthFailed? ==> Refreshing(outcome, last))
      && (r.result.Err? && !r.result.error.AuthFailed? ==> last == Attempts - 1 && outcome(last) == r.result)
    decreases Attempts - i
  {
    if Continues(i, st, outcome, refresh, k) {
      var next := NextState(i, st, outcome, refresh, k);
      CalendarLastDecides(i + 1, next.0, outcome, refresh, next.1);
      CalendarContinues(i, st, outcome, refresh, k);
    } else {
      DecidesAtStop(i, st, outcome, refresh, k);
    }
  }

  /** A run that stops at attempt `i` is decided by that attempt. */
  lemma DecidesAtStop(i: nat, st: TokenState, outcome: Outcomes, refresh: Refresher, k: nat)
    requires i < Attempts && !Continues(i, st, outcome, refresh, k)
    requires NoAuthFailures(outcome)
    ensures var r := CalendarFrom(i, st, outcome, refresh, k);
      && |r.bearers| == 1
      && (r.result.Ok? ==> outcome(i) == r.result)
      && (r.result.Err? && r.result.error.AuthFailed? ==> Refreshing(outcome, i))
      && (r.result.Err? && !r.result.error.AuthFailed? ==> i == Attempts - 1 && outcome(i) == r.result)
  {
  }

  /** The number of refreshes equals the number of refresh-triggering failures among the attempts made. */
  lemma {:induction false} CalendarRefreshCount(i: nat, st: TokenState, outcome: Outcomes, refresh: Refresher, k: nat)
    requires i < Attempts
    ensures var r := CalendarFrom(i, st, outcome, refresh, k);
      r.refreshes == Triggers(outcome, i, i + |r.bearers|)
    decreases Attempts - i
  {
    match outcome(i)
    case Ok(_) =>
    case Err(e) =>
      if NeedsRefresh(e) && i + 1 <= MaxRetries {
        match refresh(st, k)
        case Err(_) =>
        case Ok(st') => CalendarRefreshCount(i + 1, st', outcome, refresh, k + 1);
      } else if i + 1 <= MaxRetries {
        CalendarRefreshCount(i + 1, st, outcome, refresh, k);
      }
  }

  /** Every refresh-asking attempt but the last was followed by a successful refresh. */
  lemma {:induction false} CalendarRefreshesSucceeded(i: nat, st: TokenState, outcome: Outcomes, refresh: Refresher, ok: nat -> bool, k: nat)
    requires i < Attempts
    requires SucceedsBy(refresh, ok)
    ensures var r := CalendarFrom(i, st, outcome, refresh, k);
      forall n :: i <= n < i + |r.bearers| - 1 && Refreshing(outcome, n) ==> ok(k + Triggers(outcome, i, n))
    decreases Attempts - i
  {
    var r := CalendarFrom(i, st, outcome, refresh, k);
    match outcome(i)
    case Ok(_) =>
    case Err(e) =>
      if NeedsRefresh(e) && i + 1 <= MaxRetries {
        match refresh(st, k)
        case Err(_) =>
        case Ok(st') =>
          assert ok(k);
          CalendarRefreshesSucceeded(i + 1, st', outcome, refresh, ok, k + 1);
          var rest := CalendarFrom(i + 1, st', outcome, refresh, k + 1);
          assert |r.bearers| == 1 + |rest.bearers|;
          forall n | i < n < i + |r.bearers| - 1
            ensures Triggers(outcome, i, n) == 1 + Triggers(outcome, i + 1, n)
          {
            TriggersShift(outcome, i, n);
          }
      } else if i + 1 <= MaxRetries {
        CalendarRefreshesSucceeded(i + 1, st, outcome, refresh, ok, k);
        var rest := CalendarFrom(i + 1, st, outcome, refresh, k);
        assert |r.bearers| == 1 + |rest.bearers|;
        forall n | i < n < i + |r.bearers| - 1
          ensures Triggers(outcome, i, n) == Triggers(outcome, i + 1, n)
        {
          TriggersShift(outcome, i, n);
        }
      }
  }

  /** The state and refresh count the next attempt starts from after attempt `i` failed and did not abort. */
  function NextState(i: nat, st: TokenState, outcome: Outcomes, refresh: Refresher, k: nat): (TokenState, nat) {
    if Refreshing(outcome, i) && refresh(st, k).Ok? then (refresh(st, k).value, k + 1) else (st, k)
  }

  /** Attempt `i` fails before the final attempt and, when it asks for a refresh, that refresh succeeds. */
  predicate Continues(i: nat, st: TokenState, outcome: Outcomes, refresh: Refresher, k: nat) {
    i < MaxRetries && outcome(i).Err? && (Refreshing(outcome, i) ==> refresh(st, k).Ok?)
  }

  /**
   * An attempt before the final one that fails without aborting hands the run
   * on: the rest of the run decides the result and the final tokens, and the
   * refreshes counted from `i` are this attempt's plus those counted after it.
   */
  lemma CalendarContinues(i: nat, st: TokenState, outcome: Outcomes, refresh: Refresher, k: nat)
    requires Continues(i, st, outcome, refresh, k)
    ensures var r := CalendarFrom(i, st, outcome, refresh, k);
      var next := NextState(i, st, outcome, refresh, k);
      var rest := CalendarFrom(i + 1, next.0, outcome, refresh, next.1);
      && r.result == rest.result && r.tokens == rest.tokens && |r.bearers| == 1 + |rest.bearers|
      && k + Triggers(outcome, i, i + |r.bearers| - 1) == next.1 + Triggers(outcome, i + 1, i + |r.bearers| - 1)
  {
    var r := CalendarFrom(i, st, outcome, refresh, k);
    TriggersShift(outcome, i, i + |r.bearers| - 1);
  }

  /** The run from attempt `i` aborts on authentication exactly when its last attempt asked for a refresh that failed. */
  ghost predicate AbortsOnFailedRefresh(i: nat, st: TokenState, outcome: Outcomes, refresh: Refresher, ok: nat -> bool, k: nat)
    requires i < Attempts
  {
    var r := CalendarFrom(i, st, outcome, refresh, k);
    var last := i + |r.bearers| - 1;
    r.result.Err? && r.result.error.AuthFailed? <==> Refreshing(outcome, last) && !ok(k + Triggers(outcome, i, last))
  }

  /** The last attempt of a run from `i` is attempt `i` itself: the abort rule holds by the first step alone. */
  lemma AbortAtStop(i: nat, st: TokenState, outcome: Outcomes, refresh: Refresher, ok: nat -> bool, k: nat)
    requires i < Attempts && !Continues(i, st, outcome, refresh, k)
    requires SucceedsBy(refresh, ok) && NoAuthFailures(outcome)
    ensures AbortsOnFailedRefresh(i, st, outcome, refresh, ok, k)
  {
    var r := CalendarFrom(i, st, outcome, refresh, k);
    assert |r.bearers| == 1 && Triggers(outcome, i, i) == 0;
  }

  /** The abort rule of the run after attempt `i` carries over to the run from `i`. */
  lemma AbortCarries(i: nat, st: TokenState, outcome: Outcomes, refresh: Refresher, ok: nat -> bool, k: nat)
    requires Continues(i, st, outcome, refresh, k)
    requires var next := NextState(i, st, outcome, refresh, k);
      AbortsOnFailedRefresh(i + 1, next.0, outcome, refresh, ok, next.1)
    ensures AbortsOnFailedRefresh(i, st, outcome, refresh, ok, k)
  {
    CalendarContinues(i, st, outcome, refresh, k);
  }

  lemma {:induction false} CalendarAuthAbort(i: nat, st: TokenState, outcome: Outcomes, refresh: Refresher, ok: nat -> bool, k: nat)
    requires i < Attempts
    requires SucceedsBy(refresh, ok) && NoAuthFailures(outcome)
    ensures AbortsOnFailedRefresh(i, st, outcome, refresh, ok, k)
    decreases Attempts - i
  {
    if Continues(i, st, outcome, refresh, k) {
      var next := NextState(i, st, outcome, refresh, k);
      CalendarAuthAbort(i + 1, next.0, outcome, refresh, ok, next.1);
      AbortCarries(i, st, outcome, refresh, ok, k);
    } else {
      AbortAtStop(i, st, outcome, refresh, ok, k);
    }
  }

  /**
   * The run ends with the state the refreshes it made left behind, and that
   * state's access token is the one the last request carried.
   */
  lemma {:induction false} CalendarTokens(i: nat, st: TokenState, outcome: Outcomes, refresh: Refresher, k: nat)
    requires i < Attempts
    ensures var r := CalendarFrom(i, st, outcome, refresh, k);
      && r.tokens == Chain(st, refresh, k, r.refreshes)
      && r.tokens.memory.accessToken == r.bearers[|r.bearers| - 1]
    decreases Attempts - i
  {
    match outcome(i)
    case Ok(_) =>
    case Err(e) =>
      if NeedsRefresh(e) && i + 1 <= MaxRetries {
        match refresh(st, k)
        case Err(_) =>
        case Ok(st') =>
          CalendarTokens(i + 1, st', outcome, refresh, k + 1);
      } else if i + 1 <= MaxRetries {
        CalendarTokens(i + 1, st, outcome, refresh, k);
      }
  }

  /** An authentication abort of the run from attempt `i` carries the error of the refresh that failed, tried from the final state. */
  ghost predicate AbortCause(i: nat, st: TokenState, outcome: Outcomes, refresh: Refresher, k: nat)
    requires i < Attempts
  {
    var r := CalendarFrom(i, st, outcome, refresh, k);
    r.result.Err? && r.result.error.AuthFailed? ==>
      refresh(r.tokens, k + Triggers(outcome, i, i + |r.bearers| - 1)) == Err(r.result.error.cause)
  }

  /** When attempt `i` is the last, an abort is the failure of the refresh tried from the state it started in. */
  lemma CauseAtStop(i: nat, st: TokenState, outcome: Outcomes, refresh: Refresher, k: nat)
    requires i < Attempts && !Continues(i, st, outcome, refresh, k)
    requires NoAuthFailures(outcome)
    ensures AbortCause(i, st, outcome, refresh, k)
  {
    var r := CalendarFrom(i, st, outcome, refresh, k);
    assert |r.bearers| == 1 && r.tokens == st && Triggers(outcome, i, i) == 0;
  }

  /** The abort cause of the run after attempt `i` is the abort cause of the run from `i`. */
  lemma CauseCarries(i: nat, st: TokenState, outcome: Outcomes, refresh: Refresher, k: nat)
    requires Continues(i, st, outcome, refresh, k)
    requires var next := NextState(i, st, outcome, refresh, k);
      AbortCause(i + 1, next.0, outcome, refresh, next.1)
    ensures AbortCause(i, st, outcome, refresh, k)
  {
    CalendarContinues(i, st, outcome, refresh, k);
  }

  lemma {:induction false} CalendarAuthCause(i: nat, st: TokenState, outcome: Outcomes, refresh: Refresher, k: nat)
    requires i < Attempts
    requires NoAuthFailures(outcome)
    ensures AbortCause(i, st, outcome, refresh, k)
    decreases Attempts - i
  {
    if Continues(i, st, outcome, refresh, k) {
      var next := NextState(i, st, outcome, refresh, k);
      CalendarAuthCause(i + 1, next.0, outcome, refresh, next.1);
      CauseCarries(i, st, outcome, refresh, k);
    } else {
      CauseAtStop(i, st, outcome, refresh, k);
    }
  }

  /** The token sent with request `n + 1` after request `n` failed. */
  function NextBearer(outcome: Outcomes, granted: nat -> string, k: nat, i: nat, n: nat, previous: string): string
    requires i <= n
  {
    if Refreshing(outcome, n) then granted(k + Triggers(outcome, i, n)) else previous
  }

  /** Token order of a run that starts at attempt `i` with `k` refreshes consumed. */
  predicate BearersFollow(outcome: Outcomes, granted: nat -> string, k: nat, i: nat, bearers: seq<string>) {
    forall j :: 1 <= j < |bearers| ==> bearers[j] == NextBearer(outcome, granted, k, i, i + j - 1, bearers[j - 1])
  }

  /** Prepending attempt `i`'s token to a run that follows from attempt `i + 1`. */
  lemma BearersExtend(outcome: Outcomes, granted: nat -> string, k: nat, i: nat, bearers: seq<string>, k': nat)
    requires |bearers| >= 2
    requires k' == k + (if Refreshing(outcome, i) then 1 else 0)
    requires bearers[1] == NextBearer(outcome, granted, k, i, i, bearers[0])
    requires BearersFollow(outcome, granted, k', i + 1, bearers[1..])
    ensures BearersFollow(outcome, granted, k, i, bearers)
  {
    forall j | 2 <= j < |bearers|
      ensures bearers[j] == NextBearer(outcome, granted, k, i, i + j - 1, bearers[j - 1])
    {
      assert bearers[1..][j - 1] == bearers[j] && bearers[1..][j - 2] == bearers[j - 1];
      TriggersShift(outcome, i, i + j - 1);
    }
  }

  /** Attempt `i` failed asking for a refresh, which succeeded: the run continues with the new token. */
  lemma BearersAfterRefresh(i: nat, st: TokenState, st': TokenState, outcome: Outcomes, refresh: Refresher, granted: nat -> string, k: nat)
    requires i + 1 < Attempts && Installs(refresh, granted)
    requires outcome(i).Err? && NeedsRefresh(outcome(i).error) && refresh(st, k) == Ok(st')
    requires BearersFollow(outcome, granted, k + 1, i + 1, CalendarFrom(i + 1, st', outcome, refresh, k + 1).bearers)
    ensures BearersFollow(outcome, granted, k, i, CalendarFrom(i, st, outcome, refresh, k).bearers)
  {
    var r := CalendarFrom(i, st, outcome, refresh, k);
    var rest := CalendarFrom(i + 1, st', outcome, refresh, k + 1);
    assert r.bearers == [st.memory.accessToken] + rest.bearers;
    assert r.bearers[1..] == rest.bearers;
    assert Refreshing(outcome, i);
    assert r.bearers[1] == granted(k);
    BearersExtend(outcome, granted, k, i, r.bearers, k + 1);
  }

  /** Attempt `i` failed without asking for a refresh: the run continues with the same token. */
  lemma BearersAfterRetry(i: nat, st: TokenState, outcome: Outcomes, refresh: Refresher, granted: nat -> string, k: nat)
    requires i + 1 < Attempts
    requires outcome(i).Err? && !NeedsRefresh(outcome(i).error)
    requires BearersFollow(outcome, granted, k, i + 1, CalendarFrom(i + 1, st, outcome, refresh, k).bearers)
    ensures BearersFollow(outcome, granted, k, i, CalendarFrom(i, st, outcome, refresh, k).bearers)
  {
    var r := CalendarFrom(i, st, outcome, refresh, k);
    var rest := CalendarFrom(i + 1, st, outcome, refresh, k);
    assert r.bearers == [st.memory.accessToken] + rest.bearers;
    assert r.bearers[1..] == rest.bearers;
    BearersExtend(outcome, granted, k, i, r.bearers, k);
  }

  /**
   * Each request reads the current in-memory token: it is the previous one
   * unless the previous attempt refreshed, in which case it is the access
   * token that refresh granted.
   */
  lemma {:induction false} CalendarBearers(i: nat, st: TokenState, outcome: Outcomes, refresh: Refresher, granted: nat -> string, k: nat)
    requires i < Attempts
    requires Installs(refresh, granted)
    ensures BearersFollow(outcome, granted, k, i, CalendarFrom(i, st, outcome, refresh, k).bearers)
    decreases Attempts - i
  {
    match outcome(i)
    case Ok(_) =>
    case Err(e) =>
      if NeedsRefresh(e) && i + 1 <= MaxRetries {
        match refresh(st, k)
        case Err(_) =>
        case Ok(st') =>
          CalendarBearers(i + 1, st', outcome, refresh, granted, k + 1);
          BearersAfterRefresh(i, st, st', outcome, refresh, granted, k);
      } else if i + 1 <= MaxRetries {
        CalendarBearers(i + 1, st, outcome, refresh, granted, k);
        BearersAfterRetry(i, st, outcome, refresh, granted, k);
      }
  }

  lemma TriggersShift(outcome: Outcomes, lo: nat, hi: nat)
    requires lo < hi
    ensures Triggers(outcome, lo, hi) == (if Refreshing(outcome, lo) then 1 else 0) + Triggers(outcome, lo + 1, hi)
  {
  }

  /** At most one refresh per attempt, and none on the final attempt. */
  lemma {:induction false} TriggersBound(outcome: Outcomes, lo: nat, hi: nat)
    requires hi <= Attempts
    ensures Triggers(outcome, lo, hi) <= if lo >= MaxRetries then 0 else MaxRetries - lo
    decreases hi - lo
  {
    if lo < hi {
      TriggersBound(outcome, lo + 1, hi);
    }
  }

  /** Every request of a run against the scripted answers except the last one failed. */
  lemma ScriptedEarlier(st: TokenState, replies: Script<Reply<CalendarBody>>, refreshes: Script<RefreshScript>)
    ensures var r := CalendarFrom(0, st, Classify(replies), RefreshWith(refreshes), 0);
      forall n :: 0 <= n < |r.bearers| - 1 ==> Classify(replies)(n).Err?
  {
    CalendarEarlierFailed(0, st, Classify(replies), RefreshWith(refreshes), 0);
  }

  /** The last request of a run against the scripted answers decides it. */
  lemma ScriptedLast(st: TokenState, replies: Script<Reply<CalendarBody>>, refreshes: Script<RefreshScript>)
    ensures var r := CalendarFrom(0, st, Classify(replies), RefreshWith(refreshes), 0);
      && (r.result.Ok? ==> Classify(replies)(|r.bearers| - 1) == r.result)
      && (r.result.Err? && !r.result.error.AuthFailed? ==>
            |r.bearers| == Attempts && Classify(replies)(Attempts - 1) == r.result)
  {
    ClassifyNoAuthFailures(replies);
    CalendarLastDecides(0, st, Classify(replies), RefreshWith(refreshes), 0);
  }

  /** The refreshes a run against the scripted answers makes, and the tokens its requests carry. */
  lemma ScriptedBearers(st: TokenState, replies: Script<Reply<CalendarBody>>, refreshes: Script<RefreshScript>)
    ensures var r := CalendarFrom(0, st, Classify(replies), RefreshWith(refreshes), 0);
      && r.refreshes == Triggers(Classify(replies), 0, |r.bearers|) <= MaxRetries
      && BearersFollow(Classify(replies), Granted(refreshes), 0, 0, r.bearers)
  {
    var outcome := Classify(replies);
    var refresh := RefreshWith(refreshes);
    var r := CalendarFrom(0, st, outcome, refresh, 0);
    CalendarRefreshCount(0, st, outcome, refresh, 0);
    RefreshWithInstalls(refreshes);
    CalendarBearers(0, st, outcome, refresh, Granted(refreshes), 0);
    TriggersBound(outcome, 0, |r.bearers|);
  }

  /** The refresh facts of a run against the scripted answers. */
  lemma ScriptedRefreshes(st: TokenState, replies: Script<Reply<CalendarBody>>, refreshes: Script<RefreshScript>)
    ensures var r := CalendarFrom(0, st, Classify(replies), RefreshWith(refreshes), 0);
      && (forall n :: 0 <= n < |r.bearers| - 1 && Refreshing(Classify(replies), n) ==>
            RefreshSucceeds(refreshes(Triggers(Classify(replies), 0, n))))
      && (r.result.Err? && r.result.error.AuthFailed? <==>
            && Refreshing(Classify(replies), |r.bearers| - 1)
            && !RefreshSucceeds(refreshes(Triggers(Classify(replies), 0, |r.bearers| - 1))))
  {
    var outcome := Classify(replies);
    var refresh := RefreshWith(refreshes);
    RefreshWithSucceeds(refreshes);
    ClassifyNoAuthFailures(replies);
    CalendarRefreshesSucceeded(0, st, outcome, refresh, Succeeds(refreshes), 0);
    CalendarAuthAbort(0, st, outcome, refresh, Succeeds(refreshes), 0);
  }

  /** The final tokens of a run against the scripted answers, and the cause of an authentication abort. */
  lemma ScriptedTokens(st: TokenState, replies: Script<Reply<CalendarBody>>, refreshes: Script<RefreshScript>)
    ensures var r := CalendarFrom(0, st, Classify(replies), RefreshWith(refreshes), 0);
      && r.tokens == Chain(st, RefreshWith(refreshes), 0, r.refreshes)
      && r.tokens.memory.accessToken == r.bearers[|r.bearers| - 1]
      && (r.result.Err? && r.result.error.AuthFailed? ==>
            RefreshTraktToken(r.tokens, refreshes(Triggers(Classify(replies), 0, |r.bearers| - 1))) == Err(r.result.error.cause))
  {
    var outcome := Classify(replies);
    var refresh := RefreshWith(refreshes);
    var r := CalendarFrom(0, st, outcome, refresh, 0);
    ClassifyNoAuthFailures(replies);
    CalendarTokens(0, st, outcome, refresh, 0);
    CalendarAuthCause(0, st, outcome, refresh, 0);
    var m := Triggers(outcome, 0, |r.bearers| - 1);
    assert refresh(r.tokens, m) == RefreshTraktToken(r.tokens, refreshes(m));
  }

  /**
   * `getTraktCalendar`: at most three requests; the first success is returned;
   * a refresh-asking failure before the last attempt refreshes the token once
   * and the next request carries the new token; a failed refresh aborts at
   * once; after the last attempt the last error is surfaced unchanged.
   */
  function GetTraktCalendar(st: TokenState, replies: Script<Reply<CalendarBody>>, refreshes: Script<RefreshScript>): (r: CalendarRun)
    ensures 1 <= |r.bearers| <= Attempts
    ensures r.bearers[0] == st.memory.accessToken
    ensures r.waits == |r.bearers| - 1
    ensures forall n :: 0 <= n < |r.bearers| - 1 ==> Classify(replies)(n).Err?
    ensures r.result.Ok? ==> Classify(replies)(|r.bearers| - 1) == r.result
    ensures forall n :: 0 <= n < |r.bearers| - 1 && Refreshing(Classify(replies), n) ==>
      RefreshSucceeds(refreshes(Triggers(Classify(replies), 0, n)))
    ensures r.result.Err? && r.result.error.AuthFailed? <==>
      && Refreshing(Classify(replies), |r.bearers| - 1)
      && !RefreshSucceeds(refreshes(Triggers(Classify(replies), 0, |r.bearers| - 1)))
    ensures r.result.Err? && r.result.error.AuthFailed? ==>
      RefreshTraktToken(r.tokens, refreshes(Triggers(Classify(replies), 0, |r.bearers| - 1))) == Err(r.result.error.cause)
    ensures r.result.Err? && !r.result.error.AuthFailed? ==>
      |r.bearers| == Attempts && Classify(replies)(Attempts - 1) == r.result
    ensures r.refreshes == Triggers(Classify(replies), 0, |r.bearers|) <= MaxRetries
    ensures BearersFollow(Classify(replies), Granted(refreshes), 0, 0, r.bearers)
    ensures r.tokens == Chain(st, RefreshWith(refreshes), 0, r.refreshes)
    ensures r.tokens.memory.accessToken == r.bearers[|r.bearers| - 1]
  {
    ScriptedEarlier(st, replies, refreshes);
    ScriptedLast(st, replies, refreshes);
    ScriptedBearers(st, replies, refreshes);
    ScriptedRefreshes(st, replies, refreshes);
    ScriptedTokens(st, replies, refreshes);
    CalendarFrom(0, st, Classify(replies), RefreshWith(refreshes), 0)
  }
}
