/**
 * The Trakt access/refresh token pair: saving it to persistent storage
 * (`saveTokens`) and exchanging the refresh token for a new pair
 * (`refreshTraktToken`), in danmu/trakt_calendar_danmu_autofetch.js.
 */
module TraktTokens {
  import opened Wrappers
  import opened Http

  datatype Credentials = Credentials(accessToken: string, refreshToken: string)

  /** The tokens the script holds in memory and the ones in persistent storage. */
  datatype TokenState = TokenState(memory: Credentials, stored: Credentials)

  /** Whether each of the two storage writes succeeds when it is attempted. */
  datatype Writes = Writes(accessWritten: bool, refreshWritten: bool)

  /**
   * `saveTokens`: refuses an empty token; otherwise writes the access token,
   * then (only if that worked) the refresh token, and adopts the pair in
   * memory only when both writes succeeded.
   */
  datatype Saved = Saved(ok: bool, state: TokenState)

  function SaveTokens(st: TokenState, pair: Credentials, w: Writes): (r: Saved)
    ensures r.ok <==> pair.accessToken != "" && pair.refreshToken != "" && w.accessWritten && w.refreshWritten
    ensures r.ok ==> r.state.memory == pair && r.state.stored == pair
    ensures !r.ok ==> r.state.memory == st.memory
    ensures pair.accessToken == "" || pair.refreshToken == "" ==> r.state == st
    ensures r.state.stored.refreshToken != st.stored.refreshToken ==> r.state.stored.accessToken == pair.accessToken
  {
    if pair.accessToken == "" || pair.refreshToken == "" then Saved(false, st)
    else
      var afterAccess := if w.accessWritten then st.stored.(accessToken := pair.accessToken) else st.stored;
      var stored := if w.accessWritten && w.refreshWritten then afterAccess.(refreshToken := pair.refreshToken) else afterAccess;
      if w.accessWritten && w.refreshWritten then Saved(true, TokenState(pair, stored))
      else Saved(false, st.(stored := stored))
  }

  /** The body of a successful `/oauth/token` answer; a missing token is the empty string. */
  datatype TokenGrant = TokenGrant(accessToken: string, refreshToken: string, expiresIn: Option<int>)

  /** What the token endpoint answers and how the two storage writes that follow turn out. */
  datatype RefreshScript = RefreshScript(reply: Reply<TokenGrant>, writes: Writes)

  datatype RefreshError =
    | RefreshNetwork(reason: string)
    | RefreshStatus(status: int)
    | RefreshNoData
    | RefreshUnparseable
    | MissingTokens

  /** The pair a refresh grants, when the answer is well formed. */
  predicate Grants(reply: Reply<TokenGrant>, c: Credentials) {
    && reply.Response? && reply.status == 200 && reply.text != "" && reply.json.Some?
    && c == Credentials(reply.json.value.accessToken, reply.json.value.refreshToken)
    && c.accessToken != "" && c.refreshToken != ""
  }

  /** The token endpoint answered 200 with a body carrying both tokens. */
  predicate RefreshSucceeds(script: RefreshScript) {
    && script.reply.Response? && script.reply.status == 200 && script.reply.text != ""
    && script.reply.json.Some?
    && script.reply.json.value.accessToken != "" && script.reply.json.value.refreshToken != ""
  }

  /**
   * `refreshTraktToken`: succeeds only on status 200 with a non-empty body that
   * carries both tokens. On success the new pair replaces the in-memory tokens
   * before saving, and stays in memory whether or not saving succeeds.
   */
  function RefreshTraktToken(st: TokenState, script: RefreshScript): (r: Result<TokenState, RefreshError>)
    ensures r.Ok? <==> exists c :: Grants(script.reply, c)
    ensures r.Ok? <==> RefreshSucceeds(script)
    ensures forall c :: Grants(script.reply, c) ==> r.Ok? && r.value.memory == c
    ensures r.Ok? && script.writes.accessWritten && script.writes.refreshWritten ==> r.value.stored == r.value.memory
    ensures r.Ok? && !script.writes.accessWritten ==> r.value.stored == st.stored
    ensures script.reply.Response? && script.reply.status != 200 ==> r == Err(RefreshStatus(script.reply.status))
  {
    match script.reply
    case NetError(reason) => Err(RefreshNetwork(reason))
    case Response(status, text, json) =>
      if status != 200 then Err(RefreshStatus(status))
      else if text == "" then Err(RefreshNoData)
      else if json.None? then Err(RefreshUnparseable)
      else
        var grant := Credentials(json.value.accessToken, json.value.refreshToken);
        if grant.accessToken == "" || grant.refreshToken == "" then Err(MissingTokens)
        else
          assert Grants(script.reply, grant);
          var adopted := st.(memory := grant);
          Ok(SaveTokens(adopted, grant, script.writes).state)
  }
}
