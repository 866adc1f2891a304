/**
 * The transport seen by the orchestration core. Every request is answered by
 * a scripted reply: either a connection-level error or an HTTP status with the
 * raw body text and the outcome of `JSON.parse` on it (`None` when parsing throws).
 */
module Http {
  import opened Wrappers
  import opened Text

  datatype Reply<T> =
    | NetError(reason: string)
    | Response(status: int, text: string, json: Option<T>)

  /** The answers a series of identical requests receives: call `j` gets `Script(j)`. */
  type Script<T> = nat -> T

  /** The body counts as missing when it is empty or only white space. */
  predicate Blank(text: string) {
    Trim(text) == ""
  }

  /** The detail an error message carries: the body, or the fixed text `未知错误` (unknown error) when the body is empty. */
  function BodyOrUnknown(text: string): (r: string)
    ensures r != ""
    ensures text != "" ==> r == text
  {
    if text == "" then "未知错误" else text
  }
}
