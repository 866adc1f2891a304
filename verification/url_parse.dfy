/**
 * The hand-written fallback of `parseUrl` in
 * scheme_generate/emby_scheme_generator_v2.js: the regular expression
 * `^(https?:)\/\/([^\/:]+)(?::(\d+))?(\/[^?#]*)?(\?[^#]*)?(#.*)?$`
 * evaluated with JavaScript's backtracking semantics.
 *
 * Everything after the host (port, path, query, fragment) splits in exactly
 * one way; the host is then the longest run of non-`/`, non-`:` characters
 * whose remainder splits. `Decompose` computes that match and the lemmas
 * below prove it sound, complete and greedy against the grammar `Decomposes`.
 */
module UrlParse {
  import opened Wrappers
  import opened Text

  const HostStop: set<char> := {'/', ':'}
  const PathStop: set<char> := {'?', '#'}
  const SearchStop: set<char> := {'#'}
  /** `.` matches anything but these, so the fragment may not contain them. */
  const LineTerminators: set<char> := {'\n', '\r', '\U{2028}', '\U{2029}'}

  lemma LineTerminatorsAgree(c: char)
    ensures c in LineTerminators <==> IsLineTerminator(c)
  {
  }

  /**
   * What follows the host. An empty field means the group did not take part
   * in the match: a port is never empty, and path, query and fragment always
   * start with their lead character.
   */
  datatype Tail = Tail(port: string, path: string, search: string, hash: string)

  /** A group `lead [^stop]*`, or the empty string for an absent group. */
  predicate Group(g: string, lead: char, stop: set<char>) {
    g == [] || (g[0] == lead && forall i :: 1 <= i < |g| ==> g[i] !in stop)
  }

  predicate WellFormedTail(t: Tail) {
    && AllDigits(t.port)
    && Group(t.path, '/', PathStop)
    && Group(t.search, '?', SearchStop)
    && Group(t.hash, '#', LineTerminators)
  }

  /** The text a tail stands for. */
  function ComposeTail(t: Tail): string {
    PortText(t.port) + (t.path + (t.search + t.hash))
  }

  /** `:` and the digits, or nothing for an absent port. */
  function PortText(port: string): string {
    if port == [] then [] else [':'] + port
  }

  predicate ValidHost(h: string) {
    |h| >= 1 && forall i :: 0 <= i < |h| ==> h[i] !in HostStop
  }

  predicate ValidProtocol(p: string) {
    p == "https:" || p == "http:"
  }

  /** `s` is matched by the pattern with these groups. */
  predicate Decomposes(s: string, protocol: string, host: string, t: Tail) {
    ValidProtocol(protocol) && ValidHost(host) && WellFormedTail(t)
    && s == protocol + "//" + host + ComposeTail(t)
  }

  /** The optional port group: the digits after a leading colon and the rest, or None when a colon is not followed by a digit. */
  function TakePort(s: string): Option<(string, string)>
  {
    if |s| > 0 && s[0] == ':' then
      var n := DigitRun(s[1..]);
      if n == 0 then None else Some((s[1..1 + n], s[1 + n..]))
    else Some(([], s))
  }

  lemma TakePortSound(s: string)
    requires TakePort(s).Some?
    ensures var (port, rest) := TakePort(s).value;
      && AllDigits(port)
      && s == PortText(port) + rest
  {
    if |s| > 0 && s[0] == ':' {
      var n := DigitRun(s[1..]);
      assert s == [':'] + s[1..1 + n] + s[1 + n..];
    }
  }

  /** An optional group `lead [^stop]*`, taken greedily: the group and the rest. */
  function TakeGroup(s: string, lead: char, stop: set<char>): (string, string)
  {
    if |s| > 0 && s[0] == lead then
      var n := 1 + SpanUntil(s[1..], stop);
      (s[..n], s[n..])
    else ([], s)
  }

  lemma TakeGroupSound(s: string, lead: char, stop: set<char>)
    ensures var (g, rest) := TakeGroup(s, lead, stop);
      Group(g, lead, stop) && s == g + rest
  {
    if |s| > 0 && s[0] == lead {
      var n := 1 + SpanUntil(s[1..], stop);
      assert forall i :: 1 <= i < n ==> s[i] == s[1..][i - 1];
      assert s == s[..n] + s[n..];
    }
  }

  /** The tail groups, or None when the text after the host cannot finish the match. */
  function TailParse(s: string): (r: Option<Tail>)
  {
    match TakePort(s)
    case None => None
    case Some((port, r1)) =>
      var (path, r2) := TakeGroup(r1, '/', PathStop);
      var (search, r3) := TakeGroup(r2, '?', SearchStop);
      var (hash, r4) := TakeGroup(r3, '#', LineTerminators);
      if r4 == [] then Some(Tail(port, path, search, hash)) else None
  }

  /** Every tail found is well formed and stands for exactly the text it came from. */
  lemma TailParseSound(s: string)
    requires TailParse(s).Some?
    ensures WellFormedTail(TailParse(s).value)
    ensures ComposeTail(TailParse(s).value) == s
  {
    TakePortSound(s);
    var (port, r1) := TakePort(s).value;
    TakeGroupSound(r1, '/', PathStop);
    var (path, r2) := TakeGroup(r1, '/', PathStop);
    TakeGroupSound(r2, '?', SearchStop);
    var (search, r3) := TakeGroup(r2, '?', SearchStop);
    TakeGroupSound(r3, '#', LineTerminators);
    var (hash, r4) := TakeGroup(r3, '#', LineTerminators);
    assert r3 == hash + r4 == hash;
    assert TailParse(s).value == Tail(port, path, search, hash);
  }

  /** Taking a group back off a text that starts with it. */
  lemma {:induction false} TakeGroupOfConcat(g: string, rest: string, lead: char, stop: set<char>)
    requires Group(g, lead, stop)
    requires rest == [] || (rest[0] in stop && rest[0] != lead)
    ensures TakeGroup(g + rest, lead, stop) == (g, rest)
  {
    if g == [] {
      assert g + rest == rest;
    } else {
      assert (g + rest)[1..] == g[1..] + rest;
      SpanOfConcat(g[1..], rest, stop);
      assert (g + rest)[..|g|] == g;
    }
  }

  /** Taking the port back off a text that starts with it. */
  lemma TakePortOfConcat(port: string, after: string)
    requires AllDigits(port)
    requires after == [] || after[0] in {'/', '?', '#'}
    ensures TakePort(PortText(port) + after) == Some((port, after))
  {
    var s := PortText(port) + after;
    if port == [] {
      assert s == after;
    } else {
      assert s[1..] == port + after;
      DigitRunOfConcat(port, after);
      assert s[1..1 + |port|] == port;
      assert s[1 + |port|..] == after;
    }
  }

  /** A well-formed tail parses back to itself: the split after the host is unique. */
  lemma TailParseComplete(t: Tail)
    requires WellFormedTail(t)
    ensures TailParse(ComposeTail(t)) == Some(t)
  {
    var r3 := t.hash;
    var r2 := t.search + r3;
    var r1 := t.path + r2;
    assert r2 == [] || r2[0] in {'?', '#'} by {
      if r2 != [] && t.search == [] { assert r2 == t.hash; }
    }
    assert r1 == [] || r1[0] in {'/', '?', '#'} by {
      if r1 != [] && t.path == [] { assert r1 == r2; }
    }
    TakePortOfConcat(t.port, r1);
    TakeGroupOfConcat(t.path, r2, '/', PathStop);
    TakeGroupOfConcat(t.search, r3, '?', SearchStop);
    TakeGroupOfConcat(t.hash, [], '#', LineTerminators);
    assert t.hash + [] == t.hash;
  }

  /** Length of the host run `[^\/:]+` before any backtracking. */
  function HostRun(rest: string): (n: nat)
    ensures n <= |rest|
    ensures forall i :: 0 <= i < n ==> rest[i] !in HostStop
    ensures n < |rest| ==> rest[n] in HostStop
  {
    SpanUntil(rest, HostStop)
  }

  /** The tail parse of every suffix: `Tails(rest)[j]` is what is left to match once the host has `j` characters. */
  function Tails(rest: string): (tails: seq<Option<Tail>>)
    ensures |tails| == |rest| + 1
    ensures forall j :: 0 <= j <= |rest| ==> tails[j] == TailParse(rest[j..])
  {
    seq(|rest| + 1, j requires 0 <= j <= |rest| => TailParse(rest[j..]))
  }

  /** Tries host lengths `k`, `k - 1`, …, 1 and keeps the first whose remainder parses. */
  function FindHost(tails: seq<Option<Tail>>, k: nat): (r: Option<(nat, Tail)>)
    requires k < |tails|
    ensures r.Some? ==> 1 <= r.value.0 <= k && tails[r.value.0] == Some(r.value.1)
  {
    if k == 0 then None
    else match tails[k]
      case Some(t) => Some((k, t))
      case None => FindHost(tails, k - 1)
  }

  /** A host length `j` whose remainder parses is found, or one longer than it is. */
  lemma {:induction false} FindHostReaches(tails: seq<Option<Tail>>, k: nat, j: nat)
    requires k < |tails| && 1 <= j <= k
    requires tails[j].Some?
    ensures FindHost(tails, k).Some? && j <= FindHost(tails, k).value.0
  {
    if tails[k].None? {
      FindHostReaches(tails, k - 1, j);
    }
  }

  /** The groups of a match: protocol, host and tail. */
  datatype Match = Match(protocol: string, host: string, tail: Tail)

  /** The protocol group, which the first characters of the text decide. */
  function Protocol(s: string): (p: string)
    ensures p == [] || (ValidProtocol(p) && StartsWith(s, p + "//"))
    ensures p == [] ==> !StartsWith(s, "https://") && !StartsWith(s, "http://")
  {
    if StartsWith(s, "https://") then "https:"
    else if StartsWith(s, "http://") then "http:"
    else []
  }

  /** Matching the address pattern against the whole text: the groups of the match, or None when it does not match. */
  function Decompose(s: string): (r: Option<Match>)
  {
    var protocol := Protocol(s);
    if protocol == [] then None
    else
      var rest := s[|protocol| + 2..];
      match FindHost(Tails(rest), HostRun(rest))
      case None => None
      case Some((k, t)) => Some(Match(protocol, rest[..k], t))
  }

  /** Any non-empty prefix of the host run is a valid host. */
  lemma HostRunPrefix(rest: string, k: nat)
    requires 1 <= k <= HostRun(rest)
    ensures ValidHost(rest[..k])
  {
  }

  /** Cutting the text after its prefix `pre` at `k` and gluing it back. */
  lemma RegluePrefix(s: string, pre: string, k: nat)
    requires StartsWith(s, pre) && k <= |s| - |pre|
    ensures s == pre + s[|pre|..][..k] + s[|pre|..][k..]
  {
    assert s == s[..|pre|] + s[|pre|..];
    assert s[|pre|..] == s[|pre|..][..k] + s[|pre|..][k..];
  }

  /** A host taken from the host run, followed by a tail that parses, is a match. */
  lemma MatchOfParts(s: string, protocol: string, rest: string, k: nat, t: Tail)
    requires ValidProtocol(protocol) && StartsWith(s, protocol + "//") && rest == s[|protocol| + 2..]
    requires 1 <= k <= HostRun(rest)
    requires TailParse(rest[k..]) == Some(t)
    ensures Decomposes(s, protocol, rest[..k], t)
  {
    TailParseSound(rest[k..]);
    HostRunPrefix(rest, k);
    RegluePrefix(s, protocol + "//", k);
  }

  /** Whatever `Decompose` returns is a match of the pattern. */
  lemma DecomposeSound(s: string)
    requires Decompose(s).Some?
    ensures var m := Decompose(s).value; Decomposes(s, m.protocol, m.host, m.tail)
  {
    var protocol := Protocol(s);
    var rest := s[|protocol| + 2..];
    var tails := Tails(rest);
    var found := FindHost(tails, HostRun(rest));
    assert found.Some?;
    var k, t := found.value.0, found.value.1;
    assert Decompose(s).value == Match(protocol, rest[..k], t);
    assert TailParse(rest[k..]) == tails[k] == Some(t);
    MatchOfParts(s, protocol, rest, k, t);
  }

  /** A text that starts with a valid protocol and `//` has that protocol. */
  lemma ProtocolOfText(s: string, protocol: string, rest: string)
    requires ValidProtocol(protocol) && s == protocol + "//" + rest
    ensures Protocol(s) == protocol
    ensures s[|protocol| + 2..] == rest
  {
    assert s[..|protocol| + 2] == protocol + "//";
    if protocol == "http:" {
      assert s[4] == ':';
      assert !StartsWith(s, "https://");
    }
  }

  /** The protocol of any match is the one `Protocol` reads off the text. */
  lemma ProtocolOfMatch(s: string, protocol: string, host: string, t: Tail)
    requires Decomposes(s, protocol, host, t)
    ensures Protocol(s) == protocol
    ensures s[|protocol| + 2..] == host + ComposeTail(t)
  {
    assert s == protocol + "//" + (host + ComposeTail(t));
    ProtocolOfText(s, protocol, host + ComposeTail(t));
  }

  /** Any split of the text after the protocol has a host no longer than the host run. */
  lemma HostWithinRun(rest: string, host: string, after: string)
    requires ValidHost(host) && rest == host + after
    ensures |host| <= HostRun(rest)
    ensures rest[|host|..] == after
  {
  }

  /** If the pattern matches at all, `Decompose` finds a match. */
  lemma DecomposeComplete(s: string, protocol: string, host: string, t: Tail)
    requires Decomposes(s, protocol, host, t)
    ensures Decompose(s).Some?
  {
    DecomposeGreedy(s, protocol, host, t);
  }

  /** The host `Decompose` picks is the longest of all matches: the regex engine's greedy choice. */
  lemma DecomposeGreedy(s: string, protocol: string, host: string, t: Tail)
    requires Decomposes(s, protocol, host, t)
    ensures Decompose(s).Some?
    ensures Decompose(s).value.protocol == protocol
    ensures |host| <= |Decompose(s).value.host|
  {
    ProtocolOfMatch(s, protocol, host, t);
    var rest := s[|protocol| + 2..];
    HostWithinRun(rest, host, ComposeTail(t));
    TailParseComplete(t);
    FindHostReaches(Tails(rest), HostRun(rest), |host|);
  }

  /** `Decompose` on a text whose host run is exactly `k` long and whose remainder after it parses. */
  lemma DecomposeOfParts(s: string, protocol: string, rest: string, k: nat, t: Tail)
    requires protocol != [] && Protocol(s) == protocol && rest == s[|protocol| + 2..]
    requires 1 <= k == HostRun(rest)
    requires TailParse(rest[k..]) == Some(t)
    ensures Decompose(s) == Some(Match(protocol, rest[..k], t))
  {
    assert Tails(rest)[k] == Some(t);
  }

  /** With nothing of the host stop set right after it, the host runs to the end of its characters. */
  lemma HostRunExact(rest: string, host: string, after: string)
    requires ValidHost(host) && rest == host + after
    requires after == [] || after[0] in HostStop
    ensures HostRun(rest) == |host|
  {
    HostWithinRun(rest, host, after);
    if |host| < |rest| {
      assert rest[|host|] == after[0];
    }
  }

  /**
   * When the host is followed by `:`, `/` or nothing, the host run cannot be
   * any longer, so that match is the one found.
   */
  lemma DecomposeCanonical(s: string, protocol: string, host: string, t: Tail)
    requires Decomposes(s, protocol, host, t)
    requires ComposeTail(t) == [] || ComposeTail(t)[0] in HostStop
    ensures Decompose(s) == Some(Match(protocol, host, t))
  {
    ProtocolOfMatch(s, protocol, host, t);
    var rest := s[|protocol| + 2..];
    HostRunExact(rest, host, ComposeTail(t));
    HostWithinRun(rest, host, ComposeTail(t));
    TailParseComplete(t);
    assert rest[..|host|] == host;
    DecomposeOfParts(s, protocol, rest, |host|, t);
  }


  /** The fields `parseUrl` returns; absent groups read as `''`, an absent path as `/`. */
  datatype ParsedUrl = ParsedUrl(protocol: string, hostname: string, port: string,
                                 pathname: string, search: string, hash: string)

  /**
   * `parseUrl`: an empty string gives null; otherwise the groups of the match,
   * with `/` for a missing path, or null when the pattern does not match.
   */
  function ParseUrl(s: string): (r: Option<ParsedUrl>)
    ensures s == [] ==> r.None?
    ensures r.Some? <==> Decompose(s).Some?
    ensures r.Some? ==>
      var m := Decompose(s).value;
      && r.value.protocol == m.protocol && r.value.hostname == m.host
      && r.value.port == m.tail.port && r.value.search == m.tail.search && r.value.hash == m.tail.hash
      && r.value.pathname == (if m.tail.path == [] then "/" else m.tail.path)
  {
    if s == [] then None
    else match Decompose(s)
      case None => None
      case Some(m) =>
        var pathname := if m.tail.path == [] then "/" else m.tail.path;
        Some(ParsedUrl(m.protocol, m.host, m.tail.port, pathname, m.tail.search, m.tail.hash))
  }

  /** The fields of a parse each have the shape of their group. */
  lemma ParseUrlFields(s: string)
    requires ParseUrl(s).Some?
    ensures var u := ParseUrl(s).value;
      && ValidProtocol(u.protocol) && ValidHost(u.hostname)
      && WellFormedTail(Tail(u.port, u.pathname, u.search, u.hash))
      && |u.pathname| >= 1 && u.pathname[0] == '/'
  {
    DecomposeSound(s);
  }
}
