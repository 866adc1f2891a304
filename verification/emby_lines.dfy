/**
 * The line accumulator of `parseEmbyInfo` in
 * scheme_generate/emby_scheme_generator_v2.js: URLs found in the
 * configuration text become lines at once when they carry a port, or wait as
 * the "last host" for a port found on a later line.
 */
module EmbyLines {
  import opened Wrappers
  import opened Text
  import opened UrlParse

  /** One server line: a title and an address. */
  datatype Line = Line(title: string, url: string)

  /** Username, password and the server lines of one configuration text. */
  datatype EmbyInfo = EmbyInfo(username: string, password: string, lines: seq<Line>)

  /** A URL without a port, waiting for one. */
  datatype PendingHost = PendingHost(title: string, host: string)

  /**
   * The state the classification loop threads through the text. The pending
   * title is set by a bare title line and cleared by a blank line, a line
   * made from a URL, a flushed host, or a URL line that took or defaulted it
   * (whether or not that URL has a port); it is read only by the classification
   * of later text lines, which is not part of this model, and is kept so that
   * the clearing rules can be stated.
   */
  datatype Acc = Acc(lines: seq<Line>, lastHost: Option<PendingHost>, pendingTitle: Option<string>)

  const Start := Acc([], None, None)

  /** Number of trailing decimal digits. */
  function TrailingDigits(s: string): (n: nat)
    ensures n <= |s|
    ensures forall i :: |s| - n <= i < |s| ==> IsDigit(s[i])
    ensures n < |s| ==> !IsDigit(s[|s| - n - 1])
  {
    if |s| > 0 && IsDigit(s[|s| - 1]) then 1 + TrailingDigits(s[..|s| - 1]) else 0
  }

  /** The port test for text without a protocol: it ends with a colon followed by at least one digit. */
  predicate EndsWithPort(s: string) {
    var n := TrailingDigits(s);
    1 <= n < |s| && s[|s| - n - 1] == ':'
  }

  /** `EndsWithPort` is exactly the regular expression: some colon is followed by digits only, up to the end. */
  lemma EndsWithPortMeans(s: string)
    ensures EndsWithPort(s) <==> exists i :: 0 <= i < |s| - 1 && s[i] == ':' && AllDigits(s[i + 1..])
  {
    var n := TrailingDigits(s);
    if EndsWithPort(s) {
      var i := |s| - n - 1;
      assert AllDigits(s[i + 1..]);
    }
  }

  /**
   * The port test of `processUrlMatch`: a URL starting with `http` has a port
   * when `parseUrl` finds a non-empty one; any other text when it ends with
   * `:digits`.
   */
  predicate HasPort(url: string) {
    if StartsWith(url, "http") then ParseUrl(url).Some? && ParseUrl(url).value.port != []
    else EndsWithPort(url)
  }

  /**
   * `processUrlMatch`: a URL with a port becomes a line at once and clears the
   * waiting host and the pending title; a URL without one replaces the waiting
   * host and leaves the lines and the pending title alone.
   */
  function ProcessUrlMatch(acc: Acc, title: string, url: string): (r: Acc)
    ensures HasPort(url) ==> r == Acc(acc.lines + [Line(title, url)], None, None)
    ensures !HasPort(url) ==>
      r.lines == acc.lines && r.lastHost == Some(PendingHost(title, url)) && r.pendingTitle == acc.pendingTitle
  {
    if HasPort(url) then Acc(acc.lines + [Line(title, url)], None, None)
    else acc.(lastHost := Some(PendingHost(title, url)))
  }

  /** The address made from a waiting host and a port: `host:port`, or the bare host for an empty port. */
  function WithPort(host: string, port: string): (url: string)
    ensures StartsWith(url, host)
    ensures port == [] ==> url == host
    ensures port != [] ==> |url| == |host| + 1 + |port| && url[|host|] == ':' && url[|host| + 1..] == port
  {
    if port != [] then host + ":" + port else host
  }

  /**
   * `addLineFromLastHost`: a waiting host becomes a line, with the port when
   * one is given; the waiting host and the pending title are cleared either way.
   */
  function AddLineFromLastHost(acc: Acc, port: string): (r: Acc)
    ensures r.lastHost.None? && r.pendingTitle.None?
    ensures acc.lastHost.None? ==> r.lines == acc.lines
    ensures acc.lastHost.Some? ==>
      r.lines == acc.lines + [Line(acc.lastHost.value.title, WithPort(acc.lastHost.value.host, port))]
  {
    match acc.lastHost
    case None => acc.(pendingTitle := None)
    case Some(h) => Acc(acc.lines + [Line(h.title, WithPort(h.host, port))], None, None)
  }

  /**
   * One decision of the classification loop. A text line gives one step, or
   * two when a label line arrives while a host is waiting and carries no
   * port: first the flush of the waiting host, then the URL the label names.
   * - `UrlFound`: a URL with its title; `clearsTitle` when it came from a URL
   *   line that takes or defaults the pending title, after which the loop
   *   clears that title even when the URL has no port.
   * - `Flush`: the waiting host becomes a line, with the port of a port line,
   *   or with no port when a label line cuts it short.
   * - `TitleSeen`: a bare line title, pending for the next URL line.
   * - `Blank`: an empty line.
   */
  datatype Step =
    | UrlFound(title: string, url: string, clearsTitle: bool)
    | Flush(port: string)
    | TitleSeen(title: string)
    | Blank

  /**
   * One step. A title or a blank line touches only the pending title; a new
   * line comes only from a URL with a port, or from a flush (a port line or a
   * label line) while a host is waiting.
   */
  function Apply(acc: Acc, step: Step): (r: Acc)
    ensures step.TitleSeen? || step.Blank? ==> r.lines == acc.lines && r.lastHost == acc.lastHost
    ensures step.TitleSeen? ==> r.pendingTitle == Some(step.title)
    ensures step.Blank? ==> r.pendingTitle.None?
    ensures step.UrlFound? && (step.clearsTitle || HasPort(step.url)) ==> r.pendingTitle.None?
    ensures step.UrlFound? && !step.clearsTitle && !HasPort(step.url) ==> r.pendingTitle == acc.pendingTitle
    ensures r.lines != acc.lines ==> (step.UrlFound? && HasPort(step.url)) || (step.Flush? && acc.lastHost.Some?)
  {
    match step
    case UrlFound(title, url, clears) =>
      var next := ProcessUrlMatch(acc, title, url);
      if clears then next.(pendingTitle := None) else next
    case Flush(port) => AddLineFromLastHost(acc, port)
    case TitleSeen(title) => acc.(pendingTitle := Some(title))
    case Blank => acc.(pendingTitle := None)
  }

  /** The state after the steps, in order. */
  function Replay(steps: seq<Step>): Acc {
    if steps == [] then Start else Apply(Replay(steps[..|steps| - 1]), steps[|steps| - 1])
  }

  /** The lines after the whole text, including the final `addLineFromLastHost()`. */
  function Collect(steps: seq<Step>): (r: Acc)
    ensures r.lastHost.None? && r.pendingTitle.None?
  {
    AddLineFromLastHost(Replay(steps), [])
  }

  function CountUrls(steps: seq<Step>): nat {
    if steps == [] then 0 else CountUrls(steps[..|steps| - 1]) + (if steps[|steps| - 1].UrlFound? then 1 else 0)
  }

  function Pending(acc: Acc): nat {
    if acc.lastHost.Some? then 1 else 0
  }

  /** One step keeps every earlier line and adds at most one. */
  lemma ApplyExtends(acc: Acc, step: Step)
    ensures var r := Apply(acc, step);
      && |acc.lines| <= |r.lines| <= |acc.lines| + 1
      && r.lines[..|acc.lines|] == acc.lines
  {
    var r := Apply(acc, step);
    assert r.lines == acc.lines || r.lines[..|acc.lines|] == acc.lines;
  }

  /**
   * Every URL found yields at most one line: lines made so far plus the
   * waiting host never outnumber the URLs seen.
   */
  lemma {:induction false} ReplayAccounts(steps: seq<Step>)
    ensures |Replay(steps).lines| + Pending(Replay(steps)) <= CountUrls(steps)
  {
    if steps != [] {
      ReplayAccounts(steps[..|steps| - 1]);
    }
  }

  /** After the final flush no host is left waiting and there are no more lines than URLs. */
  lemma CollectAccounts(steps: seq<Step>)
    ensures |Collect(steps).lines| <= CountUrls(steps)
  {
    ReplayAccounts(steps);
  }

  /** The lines of the prefix are a prefix of the lines of the whole. */
  lemma {:induction false} ReplayMonotone(steps: seq<Step>, k: nat)
    requires k <= |steps|
    ensures |Replay(steps[..k]).lines| <= |Replay(steps).lines|
    ensures Replay(steps).lines[..|Replay(steps[..k]).lines|] == Replay(steps[..k]).lines
    decreases |steps| - k
  {
    if k < |steps| {
      var init := steps[..|steps| - 1];
      assert steps[..k] == init[..k];
      ReplayMonotone(init, k);
      ApplyExtends(Replay(init), steps[|steps| - 1]);
    } else {
      assert steps[..k] == steps;
    }
  }

  /** The lines a run makes when every URL carries a port: one per URL, in order. */
  function PortedLines(steps: seq<Step>): seq<Line> {
    if steps == [] then []
    else
      var last := match steps[|steps| - 1] case UrlFound(title, url, _) => [Line(title, url)] case _ => [];
      PortedLines(steps[..|steps| - 1]) + last
  }

  /** When every URL found has a port, each becomes a line, in order, and nothing waits. */
  lemma {:induction false} AllPortedKeepsEverything(steps: seq<Step>)
    requires forall k :: 0 <= k < |steps| && steps[k].UrlFound? ==> HasPort(steps[k].url)
    ensures Replay(steps).lines == PortedLines(steps)
    ensures Replay(steps).lastHost.None?
    ensures Collect(steps).lines == PortedLines(steps)
  {
    if steps != [] {
      AllPortedKeepsEverything(steps[..|steps| - 1]);
    }
  }
}
