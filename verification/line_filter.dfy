/**
 * The normalisation and filtering pass at the end of `parseEmbyInfo` in
 * scheme_generate/emby_scheme_generator_v2.js: drop empty and blacklisted
 * addresses, add a protocol or a default port, and keep only addresses of
 * the shape `http(s)://name(:port)`, in their original order.
 */
module LineFilter {
  import opened Wrappers
  import opened Text
  import opened UrlParse
  import opened EmbyLines
  import opened Sequences

  /** The blacklisted words, matched as whole words ignoring ASCII case. */
  const Words: seq<string> := ["wiki", "faka", "notion", "t.me", "telegram", "help"]

  /**
   * Word `w` occurs at `i`, ignoring ASCII case, with a word boundary on both
   * sides (every word starts and ends with a letter, so `\b` means the
   * neighbour is not a word character or is missing).
   */
  predicate WordAt(s: string, i: nat, w: string) {
    && i + |w| <= |s|
    && (forall k :: 0 <= k < |w| ==> Lower(s[i + k]) == w[k])
    && (i == 0 || !IsWordChar(s[i - 1]))
    && (i + |w| == |s| || !IsWordChar(s[i + |w|]))
  }

  predicate Blacklisted(s: string) {
    exists j, i :: 0 <= j < |Words| && 0 <= i <= |s| && WordAt(s, i, Words[j])
  }

  /** No blacklisted word contains a colon, a slash or a digit. */
  lemma WordsAreLettersAndDots(j: nat, k: nat)
    requires j < |Words| && k < |Words[j]|
    ensures Words[j][k] != ':' && Words[j][k] != '/' && !IsDigit(Words[j][k])
    ensures 'a' <= Words[j][0] <= 'z' && |Words[j]| >= 4
  {
  }

  /** A blacklisted word cannot start inside a protocol prefix. */
  lemma NoWordInProtocol(p: string, rest: string, i: nat, j: nat)
    requires p == "http://" || p == "https://"
    requires i < |p| && j < |Words|
    ensures !WordAt(p + rest, i, Words[j])
  {
    var s := p + rest;
    var w := Words[j];
    assert w == "wiki" || w == "faka" || w == "notion" || w == "t.me" || w == "telegram" || w == "help";
    assert s[i] == p[i];
    if i + 1 < |p| {
      assert s[i + 1] == p[i + 1];
    }
    assert Lower(p[i]) != w[0] || (i + 1 < |p| && Lower(p[i + 1]) != w[1]);
  }

  /** An occurrence in `p + u + q` lies inside `u`. */
  lemma WordInsideMiddle(p: string, u: string, q: string, i: nat, j: nat)
    requires p == [] || p == "http://" || p == "https://"
    requires q == [] || q == ":443" || q == ":80"
    requires j < |Words| && WordAt(p + u + q, i, Words[j])
    ensures |p| <= i && i + |Words[j]| <= |p| + |u|
  {
    var s := p + u + q;
    var w := Words[j];
    if i < |p| {
      assert p + (u + q) == s;
      NoWordInProtocol(p, u + q, i, j);
    } else {
      var m := |p| + |u|;
      if i <= m < i + |w| {
        assert s[m] == q[0] == ':';
        WordsAreLettersAndDots(j, m - i);
      } else if m < i < |s| {
        assert IsDigit(s[i]);
        WordsAreLettersAndDots(j, 0);
      }
    }
  }

  /** An occurrence lying inside the middle part is an occurrence in that part. */
  lemma WordWithin(p: string, u: string, q: string, i: nat, w: string)
    requires |p| <= i && i + |w| <= |p| + |u|
    requires WordAt(p + u + q, i, w)
    ensures WordAt(u, i - |p|, w)
  {
    var s := p + u + q;
    var i' := i - |p|;
    forall k | 0 <= k < |w|
      ensures Lower(u[i' + k]) == w[k]
    {
      assert s[i + k] == u[i' + k];
    }
    if i' > 0 {
      assert s[i - 1] == u[i' - 1];
    }
    if i' + |w| < |u| {
      assert s[i + |w|] == u[i' + |w|];
    }
  }

  /** Dropping the wrapping keeps an occurrence. */
  lemma WordUnwrapped(p: string, u: string, q: string, i: nat, j: nat)
    requires p == [] || p == "http://" || p == "https://"
    requires q == [] || q == ":443" || q == ":80"
    requires j < |Words| && WordAt(p + u + q, i, Words[j])
    ensures |p| <= i && WordAt(u, i - |p|, Words[j])
  {
    WordInsideMiddle(p, u, q, i, j);
    WordWithin(p, u, q, i, Words[j]);
  }

  /** Text glued on either side of an occurrence keeps it when the glued ends are not word characters. */
  lemma WordAround(p: string, u: string, q: string, i: nat, w: string)
    requires p == [] || !IsWordChar(p[|p| - 1])
    requires q == [] || !IsWordChar(q[0])
    requires WordAt(u, i, w)
    ensures WordAt(p + u + q, i + |p|, w)
  {
    var s := p + u + q;
    var i' := i + |p|;
    forall k | 0 <= k < |w|
      ensures Lower(s[i' + k]) == w[k]
    {
      assert s[i' + k] == u[i + k];
    }
    if i' > 0 {
      if i > 0 {
        assert s[i' - 1] == u[i - 1];
      } else {
        assert s[i' - 1] == p[|p| - 1];
      }
    }
    if i' + |w| < |s| {
      if i + |w| < |u| {
        assert s[i' + |w|] == u[i + |w|];
      } else {
        assert s[i' + |w|] == q[0];
      }
    }
  }

  /** Wrapping keeps an occurrence: the protocol ends in `/` and the port starts with `:`. */
  lemma WordWrapped(p: string, u: string, q: string, i: nat, j: nat)
    requires p == [] || p == "http://" || p == "https://"
    requires q == [] || q == ":443" || q == ":80"
    requires j < |Words| && WordAt(u, i, Words[j])
    ensures WordAt(p + u + q, i + |p|, Words[j])
  {
    assert p == [] || p[|p| - 1] == '/';
    assert q == [] || q[0] == ':';
    WordAround(p, u, q, i, Words[j]);
  }

  /** Adding a protocol in front or a default port behind neither creates nor hides a blacklisted word. */
  lemma BlacklistedWrapped(p: string, u: string, q: string)
    requires p == [] || p == "http://" || p == "https://"
    requires q == [] || q == ":443" || q == ":80"
    ensures Blacklisted(p + u + q) <==> Blacklisted(u)
  {
    var s := p + u + q;
    if Blacklisted(s) {
      var j, i :| 0 <= j < |Words| && 0 <= i <= |s| && WordAt(s, i, Words[j]);
      WordUnwrapped(p, u, q, i, j);
    }
    if Blacklisted(u) {
      var j, i :| 0 <= j < |Words| && 0 <= i <= |u| && WordAt(u, i, Words[j]);
      WordWrapped(p, u, q, i, j);
    }
  }

  /** The address starts with `http://` or `https://`, in lower case: this test does not ignore case. */
  predicate HasProtocol(s: string) {
    StartsWith(s, "http://") || StartsWith(s, "https://")
  }

  /** A colon directly followed by a digit sits at `i`. */
  predicate ColonDigitAt(s: string, i: nat) {
    i + 1 < |s| && s[i] == ':' && IsDigit(s[i + 1])
  }

  /** Index of the leftmost colon followed by a digit, or `|s|` when there is none. */
  function FirstColonDigit(s: string, from: nat): (i: nat)
    requires from <= |s|
    ensures from <= i <= |s|
    ensures i < |s| ==> ColonDigitAt(s, i)
    ensures forall k :: from <= k < i ==> !ColonDigitAt(s, k)
    decreases |s| - from
  {
    if from == |s| then |s|
    else if ColonDigitAt(s, from) then from
    else FirstColonDigit(s, from + 1)
  }

  /**
   * `url.match(/:(\d+)(?:[^\d]|$)/)`: the digits after the leftmost colon
   * that is followed by a digit (the greedy `\d+` always leaves a non-digit
   * or the end behind it).
   */
  function FirstPort(s: string): (r: Option<string>)
    ensures r.None? <==> forall k :: 0 <= k < |s| ==> !ColonDigitAt(s, k)
    ensures r.Some? ==> |r.value| >= 1 && AllDigits(r.value)
    ensures r.Some? ==> exists i: nat ::
      && ColonDigitAt(s, i)
      && (forall k :: 0 <= k < i ==> !ColonDigitAt(s, k))
      && r.value == s[i + 1..i + 1 + DigitRun(s[i + 1..])]
  {
    var i := FirstColonDigit(s, 0);
    if i == |s| then None else Some(s[i + 1..i + 1 + DigitRun(s[i + 1..])])
  }

  /**
   * The address normalisation: without a protocol, ports 443 and 8443 get
   * `https://`, other ports `http://`, and no port gives `https://…:443`; with
   * a protocol, an address `parseUrl` reads without a port and that does not
   * end in `:digits` gets `:443` for `https://` and `:80` otherwise.
   */
  function NormalizeUrl(url: string): (r: string)
    ensures !HasProtocol(url) && FirstPort(url).Some? ==>
      r == (if FirstPort(url).value in {"443", "8443"} then "https://" else "http://") + url
    ensures !HasProtocol(url) && FirstPort(url).None? ==> r == "https://" + url + ":443"
    ensures HasProtocol(url) ==> r == url || r == url + ":443" || r == url + ":80"
    ensures HasProtocol(url) && EndsWithPort(url) ==> r == url
    ensures HasProtocol(url) && r != url ==>
      ParseUrl(url).Some? && ParseUrl(url).value.port == [] && (StartsWith(url, "https://") <==> r == url + ":443")
  {
    if !HasProtocol(url) then
      match FirstPort(url)
      case Some(port) => (if port == "443" || port == "8443" then "https://" else "http://") + url
      case None => "https://" + url + ":443"
    else
      var parsed := ParseUrl(url);
      if parsed.Some? && parsed.value.port == [] && !EndsWithPort(url) then
        url + (if StartsWith(url, "https://") then ":443" else ":80")
      else url
  }

  /** `[\w.-]` */
  predicate NameChar(c: char) {
    IsWordChar(c) || c == '.' || c == '-'
  }

  /** Number of leading name characters. */
  function NameRun(s: string): (n: nat)
    ensures n <= |s|
    ensures forall i :: 0 <= i < n ==> NameChar(s[i])
    ensures n < |s| ==> !NameChar(s[n])
  {
    if |s| > 0 && NameChar(s[0]) then 1 + NameRun(s[1..]) else 0
  }

  function LowerAll(s: string): (r: string)
    ensures |r| == |s| && forall i :: 0 <= i < |s| ==> r[i] == Lower(s[i])
  {
    if s == [] then [] else [Lower(s[0])] + LowerAll(s[1..])
  }

  /** Length of the `https?://` prefix, compared ignoring ASCII case; 0 when there is none. */
  function ProtocolLength(u: string): (n: nat)
    ensures n == 0 || n == 7 || n == 8
    ensures n <= |u|
  {
    if |u| >= 8 && LowerAll(u[..8]) == "https://" then 8
    else if |u| >= 7 && LowerAll(u[..7]) == "http://" then 7
    else 0
  }

  /** The rest after the name: nothing, or a colon and one to five digits ending the address. */
  predicate PortSuffix(t: string) {
    t == [] || (t[0] == ':' && 2 <= |t| <= 6 && AllDigits(t[1..]))
  }

  /**
   * The final check: a protocol `http://` or `https://` in any case, a non-empty
   * run of word characters, dots and hyphens, and an optional port of one to
   * five digits ending the address.
   */
  predicate ValidUrl(u: string) {
    var p := ProtocolLength(u);
    p > 0 && var name := NameRun(u[p..]); name >= 1 && PortSuffix(u[p + name..])
  }

  /** The shape every kept address has: a lower-case protocol, no white space, a trailing port. */
  predicate Final(u: string) {
    HasProtocol(u) && EndsWithPort(u) && NoSpace(u) && ValidUrl(u)
  }

  /**
   * One step of the reduce: an empty address or one with a blacklisted word
   * is dropped, the rest is normalised and kept when it has the final shape;
   * the title is carried over.
   */
  function NormalizeLine(line: Line): (r: Option<Line>)
    ensures line.url == [] ==> r.None?
    ensures line.url != [] && Blacklisted(Trim(line.url)) ==> r.None?
    ensures r.Some? ==> r.value.title == line.title && ValidUrl(r.value.url)
    ensures r.Some? ==> r.value.url == NormalizeUrl(Trim(line.url))
    ensures line.url != [] && !Blacklisted(Trim(line.url)) && ValidUrl(NormalizeUrl(Trim(line.url))) ==> r.Some?
  {
    if line.url == [] then None
    else
      var url := Trim(line.url);
      if Blacklisted(url) then None
      else
        var normalized := NormalizeUrl(url);
        if ValidUrl(normalized) then Some(Line(line.title, normalized)) else None
  }

  /** Lower-casing leaves a lower-case protocol alone. */
  lemma LowerProtocol(pre: string)
    requires pre == "http://" || pre == "https://"
    ensures LowerAll(pre) == pre
  {
    assert forall i :: 0 <= i < |pre| ==> pre[i] in "htps:/";
    forall i | 0 <= i < |pre|
      ensures LowerAll(pre)[i] == pre[i]
    {
      assert pre[i] in "htps:/";
    }
  }

  /** A lower-case protocol prefix is read as such by the case-blind check. */
  lemma ProtocolLengthOf(pre: string, rest: string)
    requires pre == "http://" || pre == "https://"
    ensures ProtocolLength(pre + rest) == |pre|
  {
    var u := pre + rest;
    assert u[..|pre|] == pre;
    LowerProtocol(pre);
    if pre == "http://" && |u| >= 8 {
      assert LowerAll(u[..8])[4] == Lower(u[4]) == ':';
    }
  }

  lemma NameCharNotSpace(c: char)
    requires NameChar(c)
    ensures !IsJsSpace(c) && c != ':'
  {
  }

  /** The name part consists of name characters. */
  lemma NameChars(u: string, p: nat)
    requires p <= |u|
    ensures forall i :: p <= i < p + NameRun(u[p..]) ==> NameChar(u[i])
  {
    var name := NameRun(u[p..]);
    forall i | p <= i < p + name
      ensures NameChar(u[i])
    {
      assert u[i] == u[p..][i - p];
    }
  }

  /** The protocol part holds no white space. */
  lemma ProtocolNoSpace(u: string)
    requires ProtocolLength(u) > 0
    ensures forall i :: 0 <= i < ProtocolLength(u) ==> !IsJsSpace(u[i])
  {
    var p := ProtocolLength(u);
    var low := LowerAll(u[..p]);
    assert low == "https://" || low == "http://";
    forall i | 0 <= i < p
      ensures !IsJsSpace(u[i])
    {
      assert low[i] == Lower(u[..p][i]);
      assert u[..p][i] == u[i];
    }
  }

  /** The port part is a colon and digits, so it holds no white space and ends the address in a port. */
  lemma PortPart(u: string, at: nat)
    requires at <= |u| && PortSuffix(u[at..])
    ensures forall i :: at <= i < |u| ==> !IsJsSpace(u[i])
    ensures u[at..] != [] ==> EndsWithPort(u)
  {
    var tail := u[at..];
    forall i | at <= i < |u|
      ensures !IsJsSpace(u[i])
    {
      assert u[i] == tail[i - at];
    }
    if tail != [] {
      EndsWithPortMeans(u);
      assert AllDigits(u[at + 1..]) by {
        assert u[at + 1..] == tail[1..];
      }
    }
  }

  /** The parts of an address of the final shape: protocol, name and optional port. */
  lemma ValidParts(u: string)
    requires ValidUrl(u)
    ensures var p := ProtocolLength(u); var name := NameRun(u[p..]);
      && p + name <= |u|
      && (forall i :: p <= i < p + name ==> NameChar(u[i]))
      && PortSuffix(u[p + name..])
      && NoSpace(u)
      && (u[p + name..] == [] ==> forall i :: p <= i < |u| ==> u[i] != ':')
      && (u[p + name..] != [] ==> EndsWithPort(u))
  {
    var p := ProtocolLength(u);
    var name := NameRun(u[p..]);
    NameChars(u, p);
    PortPart(u, p + name);
    ValidNoSpace(u);
  }

  /** An address of the final shape holds no white space. */
  lemma ValidNoSpace(u: string)
    requires ValidUrl(u)
    ensures NoSpace(u)
  {
    var p := ProtocolLength(u);
    var name := NameRun(u[p..]);
    NameChars(u, p);
    ProtocolNoSpace(u);
    PortPart(u, p + name);
    forall i | 0 <= i < |u|
      ensures !IsJsSpace(u[i])
    {
      if p <= i < p + name {
        NameCharNotSpace(u[i]);
      }
    }
  }

  /** A protocol and a bare name parse with an empty port. */
  lemma BareParses(pre: string, host: string)
    requires pre == "http://" || pre == "https://"
    requires |host| >= 1 && forall i :: 0 <= i < |host| ==> NameChar(host[i])
    ensures ParseUrl(pre + host).Some? && ParseUrl(pre + host).value.port == []
  {
    var u := pre + host;
    var protocol := pre[..|pre| - 2];
    assert ValidHost(host);
    assert u == protocol + "//" + host + ComposeTail(Tail([], [], [], []));
    DecomposeCanonical(u, protocol, host, Tail([], [], [], []));
  }

  /** A protocol and a bare name do not end in `:digits`. */
  lemma BareNoPort(pre: string, host: string)
    requires pre == "http://" || pre == "https://"
    requires forall i :: 0 <= i < |host| ==> NameChar(host[i])
    ensures !EndsWithPort(pre + host)
  {
    var u := pre + host;
    var n := TrailingDigits(u);
    assert u[|pre| - 1] == '/';
    assert n <= |host|;
    if n < |u| {
      var q := |u| - n - 1;
      if q >= |pre| {
        assert u[q] == host[q - |pre|];
      }
    }
  }

  /**
   * The case-sensitive protocol test of `normalizeUrl` accepts exactly the
   * addresses whose case-blind protocol, as the final check reads it, is
   * written in lower case: `HTTP://host` passes the check's protocol group
   * but is not seen as having a protocol.
   */
  lemma HasProtocolLowerCase(s: string)
    ensures var p := ProtocolLength(s);
      HasProtocol(s) <==> p > 0 && s[..p] == LowerAll(s[..p])
  {
    var p := ProtocolLength(s);
    if HasProtocol(s) {
      var pre, host := ProtocolSplit(s);
      assert s[..p] == pre;
      LowerProtocol(pre);
    }
    if p > 0 && s[..p] == LowerAll(s[..p]) {
      if p == 8 {
        assert LowerAll(s[..8]) == "https://";
        assert StartsWith(s, "https://");
      } else {
        assert LowerAll(s[..7]) == "http://";
        assert StartsWith(s, "http://");
      }
    }
  }

  /** The word test reads only case-blind letters and word characters, which lower-casing keeps. */
  lemma LowerKeeps(c: char)
    ensures Lower(Lower(c)) == Lower(c)
    ensures IsWordChar(Lower(c)) <==> IsWordChar(c)
  {
  }

  lemma WordAtLower(s: string, i: nat, w: string)
    ensures WordAt(LowerAll(s), i, w) <==> WordAt(s, i, w)
  {
    var t := LowerAll(s);
    if i + |w| <= |s| {
      forall j | i <= j < i + |w|
        ensures Lower(t[j]) == Lower(s[j])
      {
        LowerKeeps(s[j]);
      }
      if i > 0 {
        LowerKeeps(s[i - 1]);
      }
      if i + |w| < |s| {
        LowerKeeps(s[i + |w|]);
      }
    }
  }

  /** The blacklist ignores case: lower-casing an address neither adds nor removes a blacklisted word. */
  lemma BlacklistedIgnoresCase(s: string)
    ensures Blacklisted(LowerAll(s)) <==> Blacklisted(s)
  {
    if Blacklisted(s) {
      var j, i :| 0 <= j < |Words| && 0 <= i <= |s| && WordAt(s, i, Words[j]);
      WordAtLower(s, i, Words[j]);
    }
    if Blacklisted(LowerAll(s)) {
      var j, i :| 0 <= j < |Words| && 0 <= i <= |s| && WordAt(LowerAll(s), i, Words[j]);
      WordAtLower(s, i, Words[j]);
    }
  }

  /** An address with a lower-case protocol splits into that protocol and the rest. */
  lemma ProtocolSplit(u: string) returns (pre: string, host: string)
    requires HasProtocol(u)
    ensures pre == "http://" || pre == "https://"
    ensures u == pre + host && ProtocolLength(u) == |pre|
  {
    pre := if StartsWith(u, "https://") then "https://" else "http://";
    host := u[|pre|..];
    assert u == pre + host;
    ProtocolLengthOf(pre, host);
  }

  /** An address of the final shape without a port is a protocol followed by a bare name. */
  lemma BareHost(u: string) returns (pre: string, host: string)
    requires HasProtocol(u) && ValidUrl(u)
    requires var p := ProtocolLength(u); u[p + NameRun(u[p..])..] == []
    ensures pre == "http://" || pre == "https://"
    ensures u == pre + host && |host| >= 1
    ensures forall i :: 0 <= i < |host| ==> NameChar(host[i])
  {
    pre, host := ProtocolSplit(u);
    assert host == u[|pre|..];
    assert NameRun(host) == |host|;
  }

  /** An address of the final shape without a port parses with no port and does not end in `:digits`. */
  lemma BareFacts(u: string)
    requires HasProtocol(u) && ValidUrl(u)
    requires var p := ProtocolLength(u); u[p + NameRun(u[p..])..] == []
    ensures ParseUrl(u).Some? && ParseUrl(u).value.port == [] && !EndsWithPort(u)
  {
    var pre, host := BareHost(u);
    BareParses(pre, host);
    BareNoPort(pre, host);
  }

  /** An address of the final shape without a port gets one from the normalisation. */
  lemma BareAddress(u: string)
    requires HasProtocol(u) && ValidUrl(u)
    requires var p := ProtocolLength(u); u[p + NameRun(u[p..])..] == []
    ensures NormalizeUrl(u) != u
  {
    BareFacts(u);
  }

  /** A protocol put in front of an address that already has a colon and digits. */
  lemma FinalPrefixed(pre: string, url: string)
    requires pre == "http://" || pre == "https://"
    requires FirstPort(url).Some? && ValidUrl(pre + url)
    ensures Final(pre + url)
  {
    var n := pre + url;
    ValidParts(n);
    ProtocolLengthOf(pre, url);
    var p := |pre|;
    assert n[p..] == url;
  }

  /** A colon followed by nothing but digits, up to the end, is a port at the end. */
  lemma PortAtEnd(n: string, at: nat)
    requires at + 1 < |n| && n[at] == ':' && AllDigits(n[at + 1..])
    ensures EndsWithPort(n)
  {
    EndsWithPortMeans(n);
  }

  /** An address of the final shape that ends in a colon and digits. */
  lemma FinalPortTail(n: string, q: string)
    requires |q| >= 2 && q[0] == ':' && AllDigits(q[1..])
    requires HasProtocol(n) && ValidUrl(n) && |n| >= |q| && n[|n| - |q|..] == q
    ensures Final(n)
  {
    ValidNoSpace(n);
    var at := |n| - |q|;
    assert n[at] == ':';
    assert n[at + 1..] == q[1..];
    PortAtEnd(n, at);
  }

  /** The default port suffixes are a colon and digits. */
  lemma DefaultPortSuffix(q: string)
    requires q == ":443" || q == ":80"
    ensures |q| >= 2 && q[0] == ':' && AllDigits(q[1..])
  {
    if q == ":443" { assert q[1..] == "443"; } else { assert q[1..] == "80"; }
  }

  /** Text added at the end keeps the protocol at the front. */
  lemma ProtocolKept(url: string, q: string)
    requires HasProtocol(url)
    ensures HasProtocol(url + q)
  {
    var n := url + q;
    if StartsWith(url, "https://") {
      assert n[..8] == url[..8];
    } else {
      assert n[..7] == url[..7];
    }
  }

  /** A default port put behind an address with a protocol, giving the final shape. */
  lemma FinalSuffixed(url: string, q: string)
    requires q == ":443" || q == ":80"
    requires HasProtocol(url) && ValidUrl(url + q)
    ensures Final(url + q)
  {
    var n := url + q;
    ProtocolKept(url, q);
    DefaultPortSuffix(q);
    assert n[|n| - |q|..] == q;
    FinalPortTail(n, q);
  }

  /** An address the normalisation leaves alone already ends in a port. */
  lemma FinalUnchanged(url: string)
    requires HasProtocol(url) && ValidUrl(url) && NormalizeUrl(url) == url
    ensures Final(url)
  {
    ValidParts(url);
    var p := ProtocolLength(url);
    if url[p + NameRun(url[p..])..] == [] {
      BareAddress(url);
    }
  }

  lemma FinalWithoutProtocol(url: string)
    requires !HasProtocol(url) && ValidUrl(NormalizeUrl(url))
    ensures Final(NormalizeUrl(url))
  {
    if FirstPort(url).Some? {
      var pre := if FirstPort(url).value in {"443", "8443"} then "https://" else "http://";
      FinalPrefixed(pre, url);
    } else {
      var u := "https://" + url;
      assert u[..8] == "https://";
      assert NormalizeUrl(url) == u + ":443";
      FinalSuffixed(u, ":443");
    }
  }

  lemma FinalWithProtocol(url: string)
    requires HasProtocol(url) && ValidUrl(NormalizeUrl(url))
    ensures Final(NormalizeUrl(url))
  {
    var n := NormalizeUrl(url);
    if n == url + ":443" {
      FinalSuffixed(url, ":443");
    } else if n == url + ":80" {
      FinalSuffixed(url, ":80");
    } else {
      FinalUnchanged(url);
    }
  }

  /** Every address the pass keeps has the final shape. */
  lemma NormalizedIsFinal(url: string)
    requires ValidUrl(NormalizeUrl(url))
    ensures Final(NormalizeUrl(url))
  {
    if HasProtocol(url) {
      FinalWithProtocol(url);
    } else {
      FinalWithoutProtocol(url);
    }
  }

  lemma NotBlacklistedWithoutProtocol(url: string)
    requires !HasProtocol(url) && !Blacklisted(url)
    ensures !Blacklisted(NormalizeUrl(url))
  {
    var n := NormalizeUrl(url);
    if FirstPort(url).Some? {
      var pre := if FirstPort(url).value in {"443", "8443"} then "https://" else "http://";
      assert n == pre + url + [];
      BlacklistedWrapped(pre, url, []);
    } else {
      BlacklistedWrapped("https://", url, ":443");
    }
  }

  /** A default port added behind an address adds no blacklisted word. */
  lemma NotBlacklistedSuffixed(url: string, q: string)
    requires q == [] || q == ":443" || q == ":80"
    requires !Blacklisted(url)
    ensures !Blacklisted(url + q)
  {
    assert url + q == [] + url + q;
    BlacklistedWrapped([], url, q);
  }

  lemma NotBlacklistedWithProtocol(url: string)
    requires HasProtocol(url) && !Blacklisted(url)
    ensures !Blacklisted(NormalizeUrl(url))
  {
    var n := NormalizeUrl(url);
    if n == url + ":443" {
      NotBlacklistedSuffixed(url, ":443");
    } else if n == url + ":80" {
      NotBlacklistedSuffixed(url, ":80");
    }
  }

  /** Normalising an address adds no blacklisted word. */
  lemma NormalizedNotBlacklisted(url: string)
    requires !Blacklisted(url)
    ensures !Blacklisted(NormalizeUrl(url))
  {
    if HasProtocol(url) {
      NotBlacklistedWithProtocol(url);
    } else {
      NotBlacklistedWithoutProtocol(url);
    }
  }

  /** A line whose address has the final shape and no blacklisted word is kept as it is. */
  lemma FinalKept(title: string, u: string)
    requires Final(u) && !Blacklisted(u)
    ensures NormalizeLine(Line(title, u)) == Some(Line(title, u))
  {
    assert u != [] by {
      assert ProtocolLength(u) > 0;
    }
    assert Trim(u) == u;
    assert NormalizeUrl(u) == u;
  }

  /** A kept line passes through the pass unchanged: the normalisation is idempotent. */
  lemma NormalizeLineIdempotent(line: Line)
    requires NormalizeLine(line).Some?
    ensures NormalizeLine(NormalizeLine(line).value) == NormalizeLine(line)
  {
    NormalizeLineFinal(line);
    var kept := NormalizeLine(line).value;
    FinalKept(kept.title, kept.url);
  }

  /** Kept lines have the final shape and no blacklisted word. */
  lemma NormalizeLineFinal(line: Line)
    requires NormalizeLine(line).Some?
    ensures Final(NormalizeLine(line).value.url) && !Blacklisted(NormalizeLine(line).value.url)
  {
    var url := Trim(line.url);
    NormalizedIsFinal(url);
    NormalizedNotBlacklisted(url);
  }

  /** The normalisation and filtering pass of `parseEmbyInfo`. */
  function NormalizeLines(lines: seq<Line>): (r: seq<Line>)
    ensures |r| <= |lines|
  {
    FilterMap(NormalizeLine, lines)
  }

  /**
   * The pass keeps the lines at the kept positions, in order, each with its
   * title, in the final shape and with no blacklisted word, and it drops every
   * other line.
   */
  lemma NormalizeLinesKeep(lines: seq<Line>)
    ensures var idx := KeptIndices(NormalizeLine, lines);
      && |NormalizeLines(lines)| == |idx|
      && (forall i :: 0 <= i < |lines| ==> (i in idx <==> NormalizeLine(lines[i]).Some?))
      && forall k :: 0 <= k < |idx| ==>
           && NormalizeLines(lines)[k] == NormalizeLine(lines[idx[k]]).value
           && NormalizeLines(lines)[k].title == lines[idx[k]].title
           && Final(NormalizeLines(lines)[k].url)
           && !Blacklisted(NormalizeLines(lines)[k].url)
  {
    var idx := KeptIndices(NormalizeLine, lines);
    FilterMapAt(NormalizeLine, lines);
    forall k | 0 <= k < |idx|
      ensures Final(NormalizeLines(lines)[k].url) && !Blacklisted(NormalizeLines(lines)[k].url)
    {
      NormalizeLineFinal(lines[idx[k]]);
    }
  }

  /** Running the pass on its own output changes nothing. */
  lemma NormalizeLinesIdempotent(lines: seq<Line>)
    ensures NormalizeLines(NormalizeLines(lines)) == NormalizeLines(lines)
  {
    forall l | NormalizeLine(l).Some?
      ensures NormalizeLine(NormalizeLine(l).value) == NormalizeLine(l)
    {
      NormalizeLineIdempotent(l);
    }
    FilterMapIdempotent(NormalizeLine, lines);
  }

  /**
   * `parseEmbyInfo`: the credentials the username and password patterns
   * found, and the collected lines after normalisation. Every line it returns
   * has a protocol and a port, passes the URL check and is not blacklisted,
   * and there are no more lines than the text held addresses.
   */
  function ParseEmbyInfo(username: string, password: string, steps: seq<Step>): (info: EmbyInfo)
    ensures info.username == username && info.password == password
    ensures |info.lines| <= CountUrls(steps)
    ensures forall k :: 0 <= k < |info.lines| ==> Final(info.lines[k].url) && !Blacklisted(info.lines[k].url)
    ensures info.lines == NormalizeLines(Collect(steps).lines)
  {
    var collected := Collect(steps).lines;
    CollectAccounts(steps);
    NormalizeLinesKeep(collected);
    EmbyInfo(username, password, NormalizeLines(collected))
  }
}
