/**
 * The start-up check of the six settings the danmu auto-fetch script needs
 * (danmu/trakt_calendar_danmu_autofetch.js, `validateConfiguration`).
 * A setting that is absent is the empty string.
 */
module DanmuConfig {
  import opened Wrappers
  import opened Text

  datatype Args = Args(
    danmuBaseUrl: string,
    danmuApiKey: string,
    traktClientId: string,
    traktClientSecret: string,
    traktAccessToken: string,
    traktRefreshToken: string)

  datatype Field =
    DanmuBaseUrl | DanmuApiKey | TraktClientId | TraktClientSecret | TraktAccessToken | TraktRefreshToken

  /** The required settings, in the order the failure message lists them. */
  const RequiredFields: seq<Field> :=
    [DanmuBaseUrl, DanmuApiKey, TraktClientId, TraktClientSecret, TraktAccessToken, TraktRefreshToken]

  /** Client id, client secret and API key must have at least this many characters. */
  const MinSecretLength: nat := 10

  function Value(a: Args, f: Field): string {
    match f
    case DanmuBaseUrl => a.danmuBaseUrl
    case DanmuApiKey => a.danmuApiKey
    case TraktClientId => a.traktClientId
    case TraktClientSecret => a.traktClientSecret
    case TraktAccessToken => a.traktAccessToken
    case TraktRefreshToken => a.traktRefreshToken
  }

  /** Why the configuration is refused; the checks run in this order and the first failure wins. */
  datatype ConfigIssue =
    | Missing(fields: seq<Field>)
    | ShortClientId
    | ShortClientSecret
    | BadBaseUrl
    | ShortApiKey

  /** The fields of `fs` whose setting is empty, in order. */
  function EmptyFields(a: Args, fs: seq<Field>): (r: seq<Field>)
    ensures forall f :: f in r <==> f in fs && Value(a, f) == ""
    ensures |r| <= |fs|
  {
    if fs == [] then []
    else (if Value(a, fs[0]) == "" then [fs[0]] else []) + EmptyFields(a, fs[1..])
  }

  lemma EveryFieldRequired(f: Field)
    ensures f in RequiredFields
  {
    match f
    case DanmuBaseUrl => assert RequiredFields[0] == f;
    case DanmuApiKey => assert RequiredFields[1] == f;
    case TraktClientId => assert RequiredFields[2] == f;
    case TraktClientSecret => assert RequiredFields[3] == f;
    case TraktAccessToken => assert RequiredFields[4] == f;
    case TraktRefreshToken => assert RequiredFields[5] == f;
  }

  /** The missing settings are exactly the empty ones. */
  lemma MissingFields(a: Args)
    ensures forall f :: f in EmptyFields(a, RequiredFields) <==> Value(a, f) == ""
  {
    forall f
      ensures f in EmptyFields(a, RequiredFields) <==> Value(a, f) == ""
    {
      EveryFieldRequired(f);
    }
  }

  function FirstIssue(a: Args): (r: Option<ConfigIssue>)
    ensures r.Some? && r.value.Missing? <==> exists f :: f in RequiredFields && Value(a, f) == ""
    ensures r.Some? && r.value.Missing? ==>
      r.value.fields != [] && forall f :: f in r.value.fields <==> Value(a, f) == ""
  {
    var missing := EmptyFields(a, RequiredFields);
    MissingFields(a);
    if missing != [] then
      assert missing[0] in missing;
      Some(Missing(missing))
    else if |a.traktClientId| < MinSecretLength then Some(ShortClientId)
    else if |a.traktClientSecret| < MinSecretLength then Some(ShortClientSecret)
    else if !StartsWith(a.danmuBaseUrl, "http") then Some(BadBaseUrl)
    else if |a.danmuApiKey| < MinSecretLength then Some(ShortApiKey)
    else None
  }

  /**
   * `validateConfiguration`: accepted exactly when every setting is present,
   * the three secrets are long enough and the danmu base URL starts with `http`.
   */
  function ValidateConfiguration(a: Args): (ok: bool)
    ensures ok <==>
      && (forall f :: Value(a, f) != "")
      && |a.traktClientId| >= MinSecretLength
      && |a.traktClientSecret| >= MinSecretLength
      && |a.danmuApiKey| >= MinSecretLength
      && StartsWith(a.danmuBaseUrl, "http")
  {
    var issue := FirstIssue(a);
    MissingFields(a);
    issue.None?
  }
}
