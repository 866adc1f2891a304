/**
 * `processEmbyLines` in scheme_generate/emby_scheme_generator_v2.js: the
 * first line becomes the main line, every later line that parses becomes a
 * backup that keeps its original position, and generic titles are renamed.
 */
module LineInfos {
  import opened Wrappers
  import opened Text
  import opened UrlParse
  import opened EmbyLines
  import opened Sequences

  /** What `createLineInfo` records about one line. */
  datatype LineInfo = LineInfo(
    index: nat,
    scheme: string,
    host: string,
    port: string,
    path: string,
    title: string,
    url: string,
    fullAddress: string,
    originalTitle: Option<string>)

  const GenericTitle := "线路"
  const CurrentTitle := "当前线路"
  const MainTitle := "主线路"
  const BackupPrefix := "备用线路"

  /** The port used when the address names none. */
  function DefaultPort(protocol: string): (port: string)
    ensures port == "443" || port == "80"
  {
    if protocol == "https:" then "443" else "80"
  }

  lemma DefaultPortDigits(protocol: string)
    ensures AllDigits(DefaultPort(protocol))
  {
    var port := DefaultPort(protocol);
    if port == "443" {
      assert port[0] == '4' && port[1] == '4' && port[2] == '3';
    } else {
      assert port[0] == '8' && port[1] == '0';
    }
  }

  /** The protocol with its first colon, if any, taken out; later colons stay. */
  function RemoveColon(s: string): (r: string)
    ensures ':' in s ==> |r| == |s| - 1
    ensures ':' !in s ==> r == s
  {
    if ':' !in s then s
    else
      var i := IndexOf(s, ':');
      s[..i] + s[i + 1..]
  }

  /** The scheme of a protocol is the protocol without its trailing colon. */
  lemma SchemeOfProtocol(protocol: string)
    requires ValidProtocol(protocol)
    ensures RemoveColon(protocol) + ":" == protocol
  {
    assert IndexOf(protocol, ':') == |protocol| - 1;
  }

  /**
   * The record `createLineInfo` builds from a parsed address: the scheme
   * without its colon, the host, the port (443 for https and 80 otherwise when
   * none is given), the path with a bare `/` dropped, and the full address
   * `scheme://host:port` followed by the path.
   */
  function InfoFrom(line: Line, index: nat, u: ParsedUrl): (r: LineInfo)
    requires ValidProtocol(u.protocol) && u.pathname != []
    ensures r.index == index && r.title == line.title && r.url == line.url && r.originalTitle.None?
    ensures r.host == u.hostname
    ensures r.scheme + ":" == u.protocol
    ensures u.port != [] ==> r.port == u.port
    ensures u.port == [] ==> r.port == DefaultPort(u.protocol)
    ensures r.path == [] <==> u.pathname + u.search + u.hash == "/"
    ensures r.path != [] ==> r.path == u.pathname + u.search + u.hash
    ensures r.fullAddress == r.scheme + "://" + r.host + ":" + r.port + r.path
  {
    var port := if u.port != [] then u.port else DefaultPort(u.protocol);
    var scheme := RemoveColon(u.protocol);
    SchemeOfProtocol(u.protocol);
    var whole := u.pathname + u.search + u.hash;
    var path := if whole == "/" then "" else whole;
    LineInfo(index, scheme, u.hostname, port, path, line.title, line.url,
             scheme + "://" + u.hostname + ":" + port + path, None)
  }

  /** `createLineInfo`: null when the trimmed address does not parse, else the record built from the parse. */
  function CreateLineInfo(line: Line, index: nat): (r: Option<LineInfo>)
    ensures r.None? <==> ParseUrl(Trim(line.url)).None?
    ensures r.Some? ==> r.value == InfoFrom(line, index, ParseUrl(Trim(line.url)).value)
  {
    match ParseUrl(Trim(line.url))
    case None => None
    case Some(u) =>
      ParseUrlFields(Trim(line.url));
      Some(InfoFrom(line, index, u))
  }

  /** The tail the full address is made of: the port and, unless dropped, the path with query and fragment. */
  function AddressTail(port: string, path: string, u: ParsedUrl): Tail {
    if path == [] then Tail(port, [], [], []) else Tail(port, u.pathname, u.search, u.hash)
  }

  lemma AddressText(scheme: string, protocol: string, host: string, port: string, path: string, t: Tail)
    requires scheme + ":" == protocol && port != [] && t.port == port
    requires path == t.path + (t.search + t.hash)
    ensures scheme + "://" + host + ":" + port + path == protocol + "//" + host + ComposeTail(t)
  {
    assert ComposeTail(t) == [':'] + port + path;
  }

  /** The address tail is well formed, spells the path, and reads back as the parse with the new port. */
  lemma AddressTailFits(u: ParsedUrl, port: string, path: string)
    requires WellFormedTail(Tail(u.port, u.pathname, u.search, u.hash))
    requires |u.pathname| >= 1 && u.pathname[0] == '/'
    requires AllDigits(port)
    requires path == [] <==> u.pathname + u.search + u.hash == "/"
    requires path != [] ==> path == u.pathname + u.search + u.hash
    ensures var t := AddressTail(port, path, u);
      && WellFormedTail(t) && t.port == port && path == t.path + (t.search + t.hash)
      && ParsedUrl(u.protocol, u.hostname, t.port, if t.path == [] then "/" else t.path, t.search, t.hash)
         == u.(port := port)
  {
    if path == [] {
      assert u.pathname + u.search + u.hash == "/";
      assert u.pathname == "/" && u.search == [] && u.hash == [];
    }
  }

  /** The full address built from a parse is matched with the address tail as its groups. */
  lemma InfoShape(line: Line, index: nat, u: ParsedUrl)
    requires ValidProtocol(u.protocol) && ValidHost(u.hostname)
    requires WellFormedTail(Tail(u.port, u.pathname, u.search, u.hash))
    requires |u.pathname| >= 1 && u.pathname[0] == '/'
    ensures var info := InfoFrom(line, index, u);
      var t := AddressTail(info.port, info.path, u);
      && Decomposes(info.fullAddress, u.protocol, u.hostname, t)
      && ComposeTail(t)[0] == ':'
      && ParsedUrl(u.protocol, u.hostname, t.port, if t.path == [] then "/" else t.path, t.search, t.hash)
         == u.(port := info.port)
  {
    var info := InfoFrom(line, index, u);
    assert AllDigits(info.port) by {
      if u.port == [] {
        DefaultPortDigits(u.protocol);
      }
    }
    AddressTailFits(u, info.port, info.path);
    var t := AddressTail(info.port, info.path, u);
    AddressText(info.scheme, u.protocol, u.hostname, info.port, info.path, t);
  }

  /** Re-parsing the full address built from a parse gives that parse back, with the port filled in. */
  lemma InfoReparses(line: Line, index: nat, u: ParsedUrl)
    requires ValidProtocol(u.protocol) && ValidHost(u.hostname)
    requires WellFormedTail(Tail(u.port, u.pathname, u.search, u.hash))
    requires |u.pathname| >= 1 && u.pathname[0] == '/'
    ensures var info := InfoFrom(line, index, u);
      ParseUrl(info.fullAddress) == Some(u.(port := info.port))
  {
    var info := InfoFrom(line, index, u);
    var t := AddressTail(info.port, info.path, u);
    InfoShape(line, index, u);
    DecomposeCanonical(info.fullAddress, u.protocol, u.hostname, t);
  }

  /**
   * Parsing the full address of a line gives back the parse of its original
   * address, with the default port filled in: protocol, host, path, query and
   * fragment survive the rebuild.
   */
  lemma FullAddressReparses(line: Line, index: nat)
    requires CreateLineInfo(line, index).Some?
    ensures var u := ParseUrl(Trim(line.url)).value;
      ParseUrl(CreateLineInfo(line, index).value.fullAddress) == Some(u.(port := CreateLineInfo(line, index).value.port))
  {
    var s := Trim(line.url);
    ParseUrlFields(s);
    InfoReparses(line, index, ParseUrl(s).value);
  }

  /** The main line keeps its title unless it is one of the generic ones. */
  function MainTitleFor(title: string): (r: string)
    ensures r != GenericTitle && r != CurrentTitle
    ensures r == title || r == MainTitle
    ensures title != GenericTitle && title != CurrentTitle ==> r == title
  {
    if title == GenericTitle || title == CurrentTitle then MainTitle else title
  }

  /** The record for position `i`, or nothing when `i` is not a later line or does not parse. */
  function BackupAt(lines: seq<Line>, i: nat): Option<LineInfo> {
    if 1 <= i < |lines| then CreateLineInfo(lines[i], i) else None
  }

  /** `createLineInfo` at each later position. */
  function BackupStep(lines: seq<Line>): nat -> Option<LineInfo> {
    (i: nat) => BackupAt(lines, i)
  }

  /** The records of every line after the first that parses, each tagged with its original position, in the order of the lines. */
  function Backups(lines: seq<Line>): (b: seq<LineInfo>)
    requires lines != []
    ensures forall k :: 0 <= k < |b| ==> 1 <= b[k].index < |lines| && BackupAt(lines, b[k].index) == Some(b[k])
    ensures forall x, y :: 0 <= x < y < |b| ==> b[x].index < b[y].index
    ensures forall i: nat :: 1 <= i < |lines| && BackupAt(lines, i).Some? ==> exists k :: 0 <= k < |b| && b[k].index == i
  {
    KeptLaterLines(lines);
    FilterMap(BackupStep(lines), Range(1, |lines|))
  }

  /** Records that carry their own position. */
  ghost predicate IndexedBy(g: nat -> Option<LineInfo>) {
    forall i: nat :: g(i).Some? ==> g(i).value.index == i
  }

  /** The `k`-th kept record comes from position `1 + KeptIndices(…)[k]` and carries that position. */
  lemma KeptAt(g: nat -> Option<LineInfo>, n: nat, k: nat)
    requires 1 <= n && IndexedBy(g)
    requires k < |KeptIndices(g, Range(1, n))|
    ensures k < |FilterMap(g, Range(1, n))|
    ensures var b := FilterMap(g, Range(1, n));
      b[k].index == 1 + KeptIndices(g, Range(1, n))[k] && g(b[k].index) == Some(b[k])
  {
    FilterMapIndex(g, Range(1, n), k);
  }

  /** Every kept record is the one its position yields. */
  lemma KeptSound(g: nat -> Option<LineInfo>, n: nat)
    requires 1 <= n && IndexedBy(g)
    ensures var b := FilterMap(g, Range(1, n));
      forall k :: 0 <= k < |b| ==> 1 <= b[k].index < n && g(b[k].index) == Some(b[k])
  {
    FilterMapLength(g, Range(1, n));
    forall k | 0 <= k < |FilterMap(g, Range(1, n))|
      ensures var b := FilterMap(g, Range(1, n)); 1 <= b[k].index < n && g(b[k].index) == Some(b[k])
    {
      KeptAt(g, n, k);
    }
  }

  /** Kept records come in increasing position. */
  lemma KeptOrdered(g: nat -> Option<LineInfo>, n: nat)
    requires 1 <= n && IndexedBy(g)
    ensures var b := FilterMap(g, Range(1, n));
      forall x, y :: 0 <= x < y < |b| ==> b[x].index < b[y].index
  {
    FilterMapLength(g, Range(1, n));
    forall x, y | 0 <= x < y < |FilterMap(g, Range(1, n))|
      ensures var b := FilterMap(g, Range(1, n)); b[x].index < b[y].index
    {
      KeptAt(g, n, x);
      KeptAt(g, n, y);
    }
  }

  /** Every position that yields a record has it kept. */
  lemma KeptComplete(g: nat -> Option<LineInfo>, n: nat)
    requires 1 <= n && IndexedBy(g)
    ensures var b := FilterMap(g, Range(1, n));
      forall i: nat :: 1 <= i < n && g(i).Some? ==> exists k :: 0 <= k < |b| && b[k].index == i
  {
    var xs := Range(1, n);
    var b := FilterMap(g, xs);
    var idx := KeptIndices(g, xs);
    FilterMapLength(g, xs);
    forall i: nat | 1 <= i < n && g(i).Some?
      ensures exists k :: 0 <= k < |b| && b[k].index == i
    {
      assert xs[i - 1] == i && g(xs[i - 1]).Some?;
      var k :| 0 <= k < |idx| && idx[k] == i - 1;
      KeptAt(g, n, k);
    }
  }

  /** Keeping the records a position yields, over positions `1 .. n - 1`, keeps each record's own position in order. */
  lemma KeptByPosition(g: nat -> Option<LineInfo>, n: nat)
    requires 1 <= n
    requires forall i: nat :: g(i).Some? ==> g(i).value.index == i
    ensures var b := FilterMap(g, Range(1, n));
      && (forall k :: 0 <= k < |b| ==> 1 <= b[k].index < n && g(b[k].index) == Some(b[k]))
      && (forall x, y :: 0 <= x < y < |b| ==> b[x].index < b[y].index)
      && (forall i: nat :: 1 <= i < n && g(i).Some? ==> exists k :: 0 <= k < |b| && b[k].index == i)
  {
    KeptSound(g, n);
    KeptOrdered(g, n);
    KeptComplete(g, n);
  }

  lemma BackupStepIndexes(lines: seq<Line>)
    ensures forall i: nat :: BackupStep(lines)(i).Some? ==> BackupStep(lines)(i).value.index == i
  {
  }

  /** The kept records of the later lines, each at its own position and in the order of the lines. */
  lemma KeptLaterLines(lines: seq<Line>)
    requires lines != []
    ensures var b := FilterMap(BackupStep(lines), Range(1, |lines|));
      && (forall k :: 0 <= k < |b| ==> 1 <= b[k].index < |lines| && BackupAt(lines, b[k].index) == Some(b[k]))
      && (forall x, y :: 0 <= x < y < |b| ==> b[x].index < b[y].index)
      && (forall i: nat :: 1 <= i < |lines| && BackupAt(lines, i).Some? ==> exists k :: 0 <= k < |b| && b[k].index == i)
  {
    var g := BackupStep(lines);
    BackupStepIndexes(lines);
    KeptByPosition(g, |lines|);
    assert forall i: nat :: g(i) == BackupAt(lines, i);
  }

  /** How many of the records carry the generic title. */
  function GenericCount(infos: seq<LineInfo>): (n: nat)
    ensures n <= |infos|
  {
    if infos == [] then 0
    else (if infos[0].title == GenericTitle then 1 else 0) + GenericCount(infos[1..])
  }

  /** A record with the generic title becomes backup number `n` and remembers its original title. */
  function Rename(info: LineInfo, n: nat): (r: LineInfo)
    ensures r == info.(title := r.title, originalTitle := r.originalTitle)
    ensures r.title != GenericTitle
    ensures info.title == GenericTitle ==>
      && |r.title| > |BackupPrefix| && r.title[..|BackupPrefix|] == BackupPrefix && r.title[|BackupPrefix|..] == Decimal(n)
      && r.originalTitle == Some(GenericTitle)
    ensures info.title != GenericTitle ==> r == info
  {
    if info.title == GenericTitle then
      info.(title := BackupPrefix + Decimal(n), originalTitle := Some(GenericTitle))
    else info
  }

  /** The renaming `map` with the counter at `counter`: it moves on after each generic title. */
  function RenameFrom(infos: seq<LineInfo>, counter: nat): (r: seq<LineInfo>)
    ensures |r| == |infos|
  {
    if infos == [] then []
    else
      var next := if infos[0].title == GenericTitle then counter + 1 else counter;
      [Rename(infos[0], counter)] + RenameFrom(infos[1..], next)
  }

  /**
   * The renaming `map`: `genericCounter` starts at 1, so each record is
   * renamed with one more than the number of generic titles before it.
   */
  function Renamed(infos: seq<LineInfo>): (r: seq<LineInfo>)
    ensures |r| == |infos|
    ensures forall k :: 0 <= k < |infos| ==> r[k] == Rename(infos[k], 1 + GenericCount(infos[..k]))
  {
    RenameFromEach(infos, 1);
    RenameFrom(infos, 1)
  }

  /** The `k`-th record is numbered after the generic titles before it. */
  lemma {:induction false} RenameFromAt(infos: seq<LineInfo>, counter: nat, k: nat)
    requires k < |infos|
    ensures RenameFrom(infos, counter)[k] == Rename(infos[k], counter + GenericCount(infos[..k]))
  {
    if k > 0 {
      var next := if infos[0].title == GenericTitle then counter + 1 else counter;
      RenameFromAt(infos[1..], next, k - 1);
      assert infos[..k][1..] == infos[1..][..k - 1];
      assert infos[..k][0] == infos[0];
    }
  }

  /** Every record is numbered after the generic titles before it. */
  lemma RenameFromEach(infos: seq<LineInfo>, counter: nat)
    ensures forall k :: 0 <= k < |infos| ==>
      RenameFrom(infos, counter)[k] == Rename(infos[k], counter + GenericCount(infos[..k]))
  {
    forall k | 0 <= k < |infos|
      ensures RenameFrom(infos, counter)[k] == Rename(infos[k], counter + GenericCount(infos[..k]))
    {
      RenameFromAt(infos, counter, k);
    }
  }

  /** Every record from position `k` on gets a number of at least the counter's starting value. */
  lemma {:induction false} RenameFromAtLeast(infos: seq<LineInfo>, counter: nat, k: nat)
    requires k < |infos|
    ensures exists m: nat :: m >= counter && RenameFrom(infos, counter)[k] == Rename(infos[k], m)
  {
    if k == 0 {
      assert RenameFrom(infos, counter)[0] == Rename(infos[0], counter);
    } else {
      var next := if infos[0].title == GenericTitle then counter + 1 else counter;
      RenameFromAtLeast(infos[1..], next, k - 1);
      var m: nat :| m >= next && RenameFrom(infos[1..], next)[k - 1] == Rename(infos[1..][k - 1], m);
      assert RenameFrom(infos, counter)[k] == RenameFrom(infos[1..], next)[k - 1];
      assert RenameFrom(infos, counter)[k] == Rename(infos[k], m);
    }
  }

  /** Different backup numbers give different titles. */
  lemma BackupTitlesDiffer(tx: string, ty: string, a: nat, b: nat)
    requires a != b
    requires tx == BackupPrefix + Decimal(a) && ty == BackupPrefix + Decimal(b)
    ensures tx != ty
  {
    if tx == ty {
      assert Decimal(a) == tx[|BackupPrefix|..];
      assert Decimal(b) == ty[|BackupPrefix|..];
      DecimalInjective(a, b);
    }
  }

  /** Renamed generic titles at `x < y` differ: the counter has moved past `x`'s number by `y`. */
  lemma {:induction false} RenameFromDistinct(infos: seq<LineInfo>, counter: nat, x: nat, y: nat)
    requires x < y < |infos|
    requires infos[x].title == GenericTitle && infos[y].title == GenericTitle
    ensures RenameFrom(infos, counter)[x].title != RenameFrom(infos, counter)[y].title
  {
    var r := RenameFrom(infos, counter);
    var next := if infos[0].title == GenericTitle then counter + 1 else counter;
    var rest := RenameFrom(infos[1..], next);
    assert r[y] == rest[y - 1];
    if x == 0 {
      RenameFromAtLeast(infos[1..], next, y - 1);
      var m: nat :| m >= next && rest[y - 1] == Rename(infos[1..][y - 1], m);
      assert infos[1..][y - 1] == infos[y];
      BackupTitlesDiffer(r[0].title, r[y].title, counter, m);
    } else {
      RenameFromDistinct(infos[1..], next, x - 1, y - 1);
      assert r[x] == rest[x - 1];
    }
  }

  /** Two renamed generic titles never coincide: each backup gets its own number. */
  lemma RenamedDistinct(infos: seq<LineInfo>, x: nat, y: nat)
    requires x < y < |infos|
    requires infos[x].title == GenericTitle && infos[y].title == GenericTitle
    ensures Renamed(infos)[x].title != Renamed(infos)[y].title
  {
    RenameFromDistinct(infos, 1, x, y);
  }

  /** The `{ main, backup }` object. */
  datatype Processed = Processed(main: LineInfo, backup: seq<LineInfo>)

  /**
   * `processEmbyLines`: nothing for no lines or an unparsable first line;
   * otherwise the first line as the main line (index 0, generic titles become
   * the main title) and the renamed backups.
   */
  function ProcessEmbyLines(lines: seq<Line>): (r: Option<Processed>)
    ensures r.None? <==> lines == [] || ParseUrl(Trim(lines[0].url)).None?
    ensures r.Some? ==> r.value.main.index == 0 && r.value.main.title != GenericTitle
    ensures r.Some? ==>
      && r.value.main == CreateLineInfo(lines[0], 0).value.(title := MainTitleFor(lines[0].title))
      && r.value.backup == Renamed(Backups(lines))
  {
    if lines == [] then None
    else match CreateLineInfo(lines[0], 0)
      case None => None
      case Some(main) => Some(Processed(main.(title := MainTitleFor(main.title)), Renamed(Backups(lines))))
  }
}
