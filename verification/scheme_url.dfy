/**
 * The import links of scheme_generate/emby_scheme_generator_v2.js:
 * `buildSchemeUrl` and the Forward and SenPlayer generators built on it.
 * A parameter object is modelled as the ordered list of its entries; the
 * generators' keys are shown to be distinct and never integer-like, so the
 * list has exactly the order `Object.entries` reports.
 */
module SchemeUrls {
  import opened Wrappers
  import opened Text
  import opened Sequences
  import opened EmbyLines
  import opened LineInfos
  import opened UrlParse

  /** One `key: value` entry of a parameter object. */
  datatype Param = Param(key: string, value: string)

  /** The entry filter of `buildSchemeUrl`: entries whose value is missing or empty are dropped; every value here is a string, so only the empty one goes. */
  function Kept(p: Param): (r: Option<Param>)
    ensures r.Some? <==> p.value != []
    ensures r.Some? ==> r.value == p
  {
    if p.value != [] then Some(p) else None
  }

  /** The entries that reach the query, in order. */
  function Present(params: seq<Param>): seq<Param> {
    FilterMap(Kept, params)
  }

  /** `${key}=${value}` for each entry; nothing is percent-encoded. */
  function Entries(ps: seq<Param>): (r: seq<string>)
    ensures |r| == |ps|
    ensures forall i :: 0 <= i < |ps| ==> r[i] == ps[i].key + "=" + ps[i].value
  {
    seq(|ps|, i requires 0 <= i < |ps| => ps[i].key + "=" + ps[i].value)
  }

  /** `buildSchemeUrl`: the base, `?`, and the non-empty entries joined by `&`. */
  function BuildSchemeUrl(base: string, params: seq<Param>): (url: string)
    ensures |url| > |base| && url[..|base| + 1] == base + "?"
    ensures |url| == |base| + 1 <==> Present(params) == []
  {
    var entries := Entries(Present(params));
    assert entries != [] ==> |Join(entries, '&')| >= |entries[0]| >= 1;
    base + "?" + Join(entries, '&')
  }

  /** How a receiver reads one `key=value` entry: split at the first `=`. */
  function ReadEntry(e: string): Param {
    if '=' in e then
      var i := IndexOf(e, '=');
      Param(e[..i], e[i + 1..])
    else Param(e, [])
  }

  /** How a receiver reads a query: the `&`-separated entries, none for an empty query. */
  function ReadQuery(q: string): (r: seq<Param>) {
    if q == [] then []
    else
      var parts := Split(q, '&');
      seq(|parts|, i requires 0 <= i < |parts| => ReadEntry(parts[i]))
  }

  /** The query of a link built on `base`. */
  function QueryOf(base: string, url: string): string
    requires |url| > |base|
  {
    url[|base| + 1..]
  }

  /** A key a query can carry unambiguously. */
  predicate SafeKey(k: string) {
    '=' !in k && '&' !in k
  }

  predicate SafeKeys(params: seq<Param>) {
    forall i :: 0 <= i < |params| ==> SafeKey(params[i].key)
  }

  /** No value holds the entry separator; values are not percent-encoded, so this is the caller's burden. */
  predicate SafeValues(params: seq<Param>) {
    forall i :: 0 <= i < |params| ==> '&' !in params[i].value
  }

  predicate QuerySafe(params: seq<Param>) {
    SafeKeys(params) && SafeValues(params)
  }

  predicate DistinctKeys(ps: seq<Param>) {
    forall i, j :: 0 <= i < j < |ps| ==> ps[i].key != ps[j].key
  }

  /** The entries that reach the query are the non-empty ones, in their order. */
  lemma PresentExact(params: seq<Param>)
    ensures var idx := KeptIndices(Kept, params);
      && |Present(params)| == |idx|
      && (forall k :: 0 <= k < |idx| ==> Present(params)[k] == params[idx[k]] && params[idx[k]].value != [])
      && (forall i :: 0 <= i < |params| && params[i].value != [] ==> i in idx)
  {
    FilterMapAt(Kept, params);
  }

  /** Reading an entry gives back its key and value when the key has no `=`. */
  lemma ReadEntryOf(p: Param)
    requires '=' !in p.key
    ensures ReadEntry(p.key + "=" + p.value) == p
  {
    var e := p.key + "=" + p.value;
    assert e[|p.key|] == '=';
    assert e[..|p.key|] == p.key;
    assert IndexOf(e, '=') == |p.key|;
    assert e[|p.key| + 1..] == p.value;
  }

  /**
   * Reading the query of a built link gives back exactly the non-empty
   * entries, in order, as long as keys hold no `=` or `&` and values no `&`.
   */
  lemma QueryRoundTrip(base: string, params: seq<Param>)
    requires QuerySafe(params)
    ensures var url := BuildSchemeUrl(base, params);
      ReadQuery(QueryOf(base, url)) == Present(params)
  {
    var ps := Present(params);
    var entries := Entries(ps);
    var url := BuildSchemeUrl(base, params);
    assert QueryOf(base, url) == Join(entries, '&');
    PresentExact(params);
    if ps != [] {
      assert |entries[0]| >= 1;
      assert Join(entries, '&') != [];
      forall i | 0 <= i < |entries|
        ensures '&' !in entries[i]
      {
        assert entries[i] == ps[i].key + "=" + ps[i].value;
      }
      SplitJoin(entries, '&');
      forall i | 0 <= i < |ps|
        ensures ReadEntry(entries[i]) == ps[i]
      {
        ReadEntryOf(ps[i]);
      }
    }
  }

  /** The value of the first entry with this key. */
  function Lookup(ps: seq<Param>, key: string): (r: Option<string>)
    ensures r.Some? <==> exists i :: 0 <= i < |ps| && ps[i].key == key
  {
    if ps == [] then None
    else if ps[0].key == key then Some(ps[0].value)
    else
      var r := Lookup(ps[1..], key);
      assert forall i :: 1 <= i < |ps| ==> ps[i] == ps[1..][i - 1];
      r
  }

  /** With distinct keys, looking a key up finds its own entry. */
  lemma {:induction false} LookupFinds(ps: seq<Param>, k: nat)
    requires DistinctKeys(ps) && k < |ps|
    ensures Lookup(ps, ps[k].key) == Some(ps[k].value)
  {
    if k > 0 {
      assert ps[0].key != ps[k].key;
      assert ps[1..][k - 1] == ps[k];
      LookupFinds(ps[1..], k - 1);
    }
  }

  /** Keeping entries in order keeps keys distinct. */
  lemma PresentDistinct(params: seq<Param>)
    requires DistinctKeys(params)
    ensures DistinctKeys(Present(params))
  {
    PresentExact(params);
    var idx := KeptIndices(Kept, params);
    forall i, j | 0 <= i < j < |Present(params)|
      ensures Present(params)[i].key != Present(params)[j].key
    {
      assert idx[i] < idx[j];
    }
  }

  /** Looking a key up among the entries that reach the query finds its value, or nothing when it was empty. */
  lemma PresentLookup(params: seq<Param>, k: nat)
    requires DistinctKeys(params) && k < |params|
    ensures Lookup(Present(params), params[k].key) == (if params[k].value != [] then Some(params[k].value) else None)
  {
    PresentExact(params);
    PresentDistinct(params);
    var ps := Present(params);
    var idx := KeptIndices(Kept, params);
    if params[k].value != [] {
      var m :| 0 <= m < |idx| && idx[m] == k;
      LookupFinds(ps, m);
    } else {
      forall i | 0 <= i < |ps|
        ensures ps[i].key != params[k].key
      {
        assert idx[i] != k;
      }
    }
  }

  /**
   * What a receiver of the link reads for a key of the parameter object: its
   * value when non-empty, nothing when the empty value was filtered out.
   */
  lemma ReadsBack(base: string, params: seq<Param>, k: nat)
    requires QuerySafe(params) && DistinctKeys(params) && k < |params|
    ensures var read := ReadQuery(QueryOf(base, BuildSchemeUrl(base, params)));
      Lookup(read, params[k].key) == (if params[k].value != [] then Some(params[k].value) else None)
  {
    QueryRoundTrip(base, params);
    PresentLookup(params, k);
  }

  /** The numbered entries of the backups: `<prefix><index>` and `<prefix><index><suffix>` for each, in order. */
  function Numbered(backup: seq<LineInfo>, prefix: string, suffix: string,
                    first: LineInfo -> string, second: LineInfo -> string): (r: seq<Param>)
    ensures |r| == 2 * |backup|
  {
    if backup == [] then []
    else
      var b := backup[|backup| - 1];
      Numbered(backup[..|backup| - 1], prefix, suffix, first, second)
        + [Param(prefix + Decimal(b.index), first(b)), Param(prefix + Decimal(b.index) + suffix, second(b))]
  }

  /** The two entries of the `k`-th backup sit at `2k` and `2k + 1`. */
  lemma {:induction false} NumberedAt(backup: seq<LineInfo>, prefix: string, suffix: string,
                                      first: LineInfo -> string, second: LineInfo -> string, k: nat)
    requires k < |backup|
    ensures var r := Numbered(backup, prefix, suffix, first, second);
      && r[2 * k] == Param(prefix + Decimal(backup[k].index), first(backup[k]))
      && r[2 * k + 1] == Param(prefix + Decimal(backup[k].index) + suffix, second(backup[k]))
  {
    var n := |backup| - 1;
    if k < n {
      NumberedAt(backup[..n], prefix, suffix, first, second, k);
    }
  }

  /** Every backup's two entries, at `2k` and `2k + 1`. */
  lemma NumberedAll(backup: seq<LineInfo>, prefix: string, suffix: string,
                    first: LineInfo -> string, second: LineInfo -> string)
    ensures var r := Numbered(backup, prefix, suffix, first, second);
      forall k :: 0 <= k < |backup| ==>
        && r[2 * k] == Param(prefix + Decimal(backup[k].index), first(backup[k]))
        && r[2 * k + 1] == Param(prefix + Decimal(backup[k].index) + suffix, second(backup[k]))
  {
    forall k | 0 <= k < |backup|
      ensures var r := Numbered(backup, prefix, suffix, first, second);
        && r[2 * k] == Param(prefix + Decimal(backup[k].index), first(backup[k]))
        && r[2 * k + 1] == Param(prefix + Decimal(backup[k].index) + suffix, second(backup[k]))
    {
      NumberedAt(backup, prefix, suffix, first, second, k);
    }
  }

  /** A suffix that cannot be mistaken for more digits. */
  predicate PlainSuffix(suffix: string) {
    suffix != [] && !IsDigit(suffix[|suffix| - 1])
  }

  /** Numbered keys name their number and their kind: equal keys have equal numbers and equal suffixes. */
  lemma NumberedKeyEq(prefix: string, suffix: string, m: nat, n: nat, s1: string, s2: string)
    requires PlainSuffix(suffix)
    requires (s1 == [] || s1 == suffix) && (s2 == [] || s2 == suffix)
    ensures prefix + Decimal(m) + s1 == prefix + Decimal(n) + s2 ==> m == n && s1 == s2
  {
    var x := prefix + Decimal(m) + s1;
    var y := prefix + Decimal(n) + s2;
    assert IsDigit(x[|x| - 1]) <==> s1 == [];
    assert IsDigit(y[|y| - 1]) <==> s2 == [];
    if x == y {
      assert s1 == s2;
      assert x[|prefix|..|x| - |s1|] == Decimal(m);
      assert y[|prefix|..|y| - |s2|] == Decimal(n);
      DecimalInjective(m, n);
    }
  }

  predicate IncreasingIndices(backup: seq<LineInfo>) {
    forall x, y :: 0 <= x < y < |backup| ==> backup[x].index < backup[y].index
  }

  /** Entries `i < j` of the numbered list have different keys. */
  lemma NumberedPairDistinct(backup: seq<LineInfo>, prefix: string, suffix: string,
                             first: LineInfo -> string, second: LineInfo -> string, i: nat, j: nat)
    requires IncreasingIndices(backup) && PlainSuffix(suffix)
    requires i < j < 2 * |backup|
    ensures var r := Numbered(backup, prefix, suffix, first, second); r[i].key != r[j].key
  {
    var r := Numbered(backup, prefix, suffix, first, second);
    var a, b := i / 2, j / 2;
    NumberedAt(backup, prefix, suffix, first, second, a);
    NumberedAt(backup, prefix, suffix, first, second, b);
    var si: string := if i % 2 == 0 then [] else suffix;
    var sj: string := if j % 2 == 0 then [] else suffix;
    assert r[i].key == prefix + Decimal(backup[a].index) + si;
    assert r[j].key == prefix + Decimal(backup[b].index) + sj;
    NumberedKeyEq(prefix, suffix, backup[a].index, backup[b].index, si, sj);
    assert a < b || i % 2 != j % 2;
  }

  /** Backups with increasing positions get pairwise distinct numbered keys. */
  lemma NumberedDistinct(backup: seq<LineInfo>, prefix: string, suffix: string,
                         first: LineInfo -> string, second: LineInfo -> string)
    requires IncreasingIndices(backup) && PlainSuffix(suffix)
    ensures DistinctKeys(Numbered(backup, prefix, suffix, first, second))
  {
    var r := Numbered(backup, prefix, suffix, first, second);
    forall i, j | 0 <= i < j < |r|
      ensures r[i].key != r[j].key
    {
      NumberedPairDistinct(backup, prefix, suffix, first, second, i, j);
    }
  }

  /** Every numbered key is the prefix followed by at least one more character, and safe in a query. */
  lemma NumberedShape(backup: seq<LineInfo>, prefix: string, suffix: string,
                      first: LineInfo -> string, second: LineInfo -> string)
    requires SafeKey(prefix) && SafeKey(suffix)
    ensures var r := Numbered(backup, prefix, suffix, first, second);
      && SafeKeys(r)
      && forall i :: 0 <= i < |r| ==> |r[i].key| > |prefix| && r[i].key[..|prefix|] == prefix
  {
    var r := Numbered(backup, prefix, suffix, first, second);
    forall i | 0 <= i < |r|
      ensures SafeKey(r[i].key) && |r[i].key| > |prefix| && r[i].key[..|prefix|] == prefix
    {
      NumberedAt(backup, prefix, suffix, first, second, i / 2);
      var d := Decimal(backup[i / 2].index);
      assert '=' !in d && '&' !in d;
    }
  }

  /** Fixed keys that are not longer extensions of the prefix never clash with numbered ones. */
  lemma AppendNumbered(fixed: seq<Param>, backup: seq<LineInfo>, prefix: string, suffix: string,
                       first: LineInfo -> string, second: LineInfo -> string)
    requires DistinctKeys(fixed) && SafeKeys(fixed)
    requires forall i :: 0 <= i < |fixed| ==> |fixed[i].key| <= |prefix| || fixed[i].key[..|prefix|] != prefix
    requires IncreasingIndices(backup) && PlainSuffix(suffix) && SafeKey(prefix) && SafeKey(suffix)
    ensures var ps := fixed + Numbered(backup, prefix, suffix, first, second);
      DistinctKeys(ps) && SafeKeys(ps)
  {
    var r := Numbered(backup, prefix, suffix, first, second);
    NumberedDistinct(backup, prefix, suffix, first, second);
    NumberedShape(backup, prefix, suffix, first, second);
    var ps := fixed + r;
    forall i, j | 0 <= i < j < |ps|
      ensures ps[i].key != ps[j].key
    {
      if j >= |fixed| && i < |fixed| {
        assert ps[j] == r[j - |fixed|];
      }
    }
  }

  const ForwardBase := "forward://import"
  const SenPlayerBase := "senplayer://importserver"

  /** The address with one trailing slash removed when it ends with one, and unchanged otherwise. */
  function WithoutTrailingSlash(u: string): (r: string)
    ensures u != [] && u[|u| - 1] == '/' ==> r + "/" == u
    ensures u == [] || u[|u| - 1] != '/' ==> r == u
  {
    if u != [] && u[|u| - 1] == '/' then u[..|u| - 1] else u
  }

  function ForwardAddress(b: LineInfo): string {
    WithoutTrailingSlash(b.url)
  }

  function TitleOf(b: LineInfo): string {
    b.title
  }

  function FullAddressOf(b: LineInfo): string {
    b.fullAddress
  }

  /** The fixed entries of `generateForwardSchemeUrl`'s object. */
  function ForwardFixed(info: EmbyInfo, p: Processed): seq<Param> {
    [Param("type", "emby"), Param("scheme", p.main.scheme), Param("host", p.main.host),
     Param("port", p.main.port), Param("title", p.main.title),
     Param("username", info.username), Param("password", info.password)]
  }

  /**
   * The parameter object of `generateForwardSchemeUrl`, in insertion order:
   * the seven fixed entries, then for each backup its address without a
   * trailing slash under `line<index>` and its title under `line<index>title`.
   */
  function ForwardParams(info: EmbyInfo, p: Processed): (r: seq<Param>)
    ensures |r| == 7 + 2 * |p.backup|
    ensures r[..7] == ForwardFixed(info, p)
    ensures forall k :: 0 <= k < |p.backup| ==>
      && r[7 + 2 * k] == Param("line" + Decimal(p.backup[k].index), WithoutTrailingSlash(p.backup[k].url))
      && r[7 + 2 * k + 1] == Param("line" + Decimal(p.backup[k].index) + "title", p.backup[k].title)
  {
    NumberedAll(p.backup, "line", "title", ForwardAddress, TitleOf);
    ForwardFixed(info, p) + Numbered(p.backup, "line", "title", ForwardAddress, TitleOf)
  }

  /** The fixed entries of `generateSenPlayerSchemeUrl`'s object. */
  function SenPlayerFixed(info: EmbyInfo, p: Processed): seq<Param> {
    [Param("type", "emby"), Param("title", p.main.title), Param("address", p.main.fullAddress),
     Param("username", info.username), Param("password", info.password)]
  }

  /**
   * The parameter object of `generateSenPlayerSchemeUrl`, in insertion order:
   * the five fixed entries, then for each backup its full address under
   * `address<index>` and its title under `address<index>name`.
   */
  function SenPlayerParams(info: EmbyInfo, p: Processed): (r: seq<Param>)
    ensures |r| == 5 + 2 * |p.backup|
    ensures r[..5] == SenPlayerFixed(info, p)
    ensures forall k :: 0 <= k < |p.backup| ==>
      && r[5 + 2 * k] == Param("address" + Decimal(p.backup[k].index), p.backup[k].fullAddress)
      && r[5 + 2 * k + 1] == Param("address" + Decimal(p.backup[k].index) + "name", p.backup[k].title)
  {
    NumberedAll(p.backup, "address", "name", FullAddressOf, TitleOf);
    SenPlayerFixed(info, p) + Numbered(p.backup, "address", "name", FullAddressOf, TitleOf)
  }

  /** Keys told apart by their length or first letter are distinct. */
  predicate Tagged(ps: seq<Param>) {
    forall i, j :: 0 <= i < j < |ps| ==>
      |ps[i].key| != |ps[j].key| || (ps[i].key != [] && ps[j].key != [] && ps[i].key[0] != ps[j].key[0])
  }

  lemma TaggedDistinct(ps: seq<Param>)
    requires Tagged(ps)
    ensures DistinctKeys(ps)
  {
  }

  /** Every renaming keeps the record's position. */
  lemma RenamedIndices(infos: seq<LineInfo>)
    requires IncreasingIndices(infos)
    ensures IncreasingIndices(Renamed(infos))
  {
    forall k | 0 <= k < |infos|
      ensures Renamed(infos)[k].index == infos[k].index
    {
      assert Renamed(infos)[k] == Rename(infos[k], 1 + GenericCount(infos[..k]));
    }
  }

  /** The renamed backups keep the positions of the lines they came from, so these increase. */
  lemma ProcessedIncreasing(lines: seq<Line>)
    requires ProcessEmbyLines(lines).Some?
    ensures IncreasingIndices(ProcessEmbyLines(lines).value.backup)
  {
    RenamedIndices(Backups(lines));
  }

  /** The fixed Forward keys are distinct, safe, and none starts with `line`. */
  lemma ForwardFixedKeys(info: EmbyInfo, p: Processed)
    ensures var f := ForwardFixed(info, p);
      && DistinctKeys(f) && SafeKeys(f)
      && forall i :: 0 <= i < |f| ==> |f[i].key| <= 4 || f[i].key[..4] != "line"
  {
    var f := ForwardFixed(info, p);
    assert Tagged(f);
    TaggedDistinct(f);
    forall i | 0 <= i < |f|
      ensures f[i].key[0] != 'l'
    {
    }
  }

  /** Every key of the Forward object is distinct and safe, so the list is the object `Object.entries` walks. */
  lemma ForwardKeys(info: EmbyInfo, p: Processed)
    requires IncreasingIndices(p.backup)
    ensures DistinctKeys(ForwardParams(info, p)) && SafeKeys(ForwardParams(info, p))
  {
    ForwardFixedKeys(info, p);
    AppendNumbered(ForwardFixed(info, p), p.backup, "line", "title", ForwardAddress, TitleOf);
  }

  /** The fixed SenPlayer keys are distinct, safe, and only `address` itself starts with `address`. */
  lemma SenPlayerFixedKeys(info: EmbyInfo, p: Processed)
    ensures var f := SenPlayerFixed(info, p);
      && DistinctKeys(f) && SafeKeys(f)
      && forall i :: 0 <= i < |f| ==> |f[i].key| <= 7 || f[i].key[..7] != "address"
  {
    var f := SenPlayerFixed(info, p);
    assert Tagged(f);
    TaggedDistinct(f);
    forall i | 0 <= i < |f|
      ensures |f[i].key| <= 7 || f[i].key[0] != 'a'
    {
    }
  }

  /** Every key of the SenPlayer object is distinct and safe. */
  lemma SenPlayerKeys(info: EmbyInfo, p: Processed)
    requires IncreasingIndices(p.backup)
    ensures DistinctKeys(SenPlayerParams(info, p)) && SafeKeys(SenPlayerParams(info, p))
  {
    SenPlayerFixedKeys(info, p);
    AppendNumbered(SenPlayerFixed(info, p), p.backup, "address", "name", FullAddressOf, TitleOf);
  }

  /** `generateForwardSchemeUrl`: no link when the lines do not yield a main line. */
  function GenerateForwardSchemeUrl(info: EmbyInfo): (r: Option<string>)
    ensures r.None? <==> info.lines == [] || ParseUrl(Trim(info.lines[0].url)).None?
    ensures r.Some? ==> |r.value| > |ForwardBase| && r.value[..|ForwardBase| + 1] == ForwardBase + "?"
  {
    match ProcessEmbyLines(info.lines)
    case None => None
    case Some(p) => Some(BuildSchemeUrl(ForwardBase, ForwardParams(info, p)))
  }

  /** `generateSenPlayerSchemeUrl`: no link when the lines do not yield a main line. */
  function GenerateSenPlayerSchemeUrl(info: EmbyInfo): (r: Option<string>)
    ensures r.None? <==> info.lines == [] || ParseUrl(Trim(info.lines[0].url)).None?
    ensures r.Some? ==> |r.value| > |SenPlayerBase| && r.value[..|SenPlayerBase| + 1] == SenPlayerBase + "?"
  {
    match ProcessEmbyLines(info.lines)
    case None => None
    case Some(p) => Some(BuildSchemeUrl(SenPlayerBase, SenPlayerParams(info, p)))
  }

  /**
   * A Forward link carries every entry of its parameter object: reading the
   * query back gives exactly the entries with non-empty values, in order, so
   * each key gets its value and an empty value gets no entry.
   */
  lemma ForwardCarries(info: EmbyInfo, k: nat)
    requires GenerateForwardSchemeUrl(info).Some?
    requires var ps := ForwardParams(info, ProcessEmbyLines(info.lines).value);
      SafeValues(ps) && k < |ps|
    ensures var ps := ForwardParams(info, ProcessEmbyLines(info.lines).value);
      var read := ReadQuery(QueryOf(ForwardBase, GenerateForwardSchemeUrl(info).value));
      Lookup(read, ps[k].key) == (if ps[k].value != [] then Some(ps[k].value) else None)
    ensures ReadQuery(QueryOf(ForwardBase, GenerateForwardSchemeUrl(info).value))
      == Present(ForwardParams(info, ProcessEmbyLines(info.lines).value))
  {
    var p := ProcessEmbyLines(info.lines).value;
    ProcessedIncreasing(info.lines);
    ForwardKeys(info, p);
    ReadsBack(ForwardBase, ForwardParams(info, p), k);
    QueryRoundTrip(ForwardBase, ForwardParams(info, p));
  }

  /**
   * A SenPlayer link carries every entry of its parameter object: reading the
   * query back gives exactly the entries with non-empty values, in order, so
   * each key gets its value and an empty value gets no entry.
   */
  lemma SenPlayerCarries(info: EmbyInfo, k: nat)
    requires GenerateSenPlayerSchemeUrl(info).Some?
    requires var ps := SenPlayerParams(info, ProcessEmbyLines(info.lines).value);
      SafeValues(ps) && k < |ps|
    ensures var ps := SenPlayerParams(info, ProcessEmbyLines(info.lines).value);
      var read := ReadQuery(QueryOf(SenPlayerBase, GenerateSenPlayerSchemeUrl(info).value));
      Lookup(read, ps[k].key) == (if ps[k].value != [] then Some(ps[k].value) else None)
    ensures ReadQuery(QueryOf(SenPlayerBase, GenerateSenPlayerSchemeUrl(info).value))
      == Present(SenPlayerParams(info, ProcessEmbyLines(info.lines).value))
  {
    var p := ProcessEmbyLines(info.lines).value;
    ProcessedIncreasing(info.lines);
    SenPlayerKeys(info, p);
    ReadsBack(SenPlayerBase, SenPlayerParams(info, p), k);
    QueryRoundTrip(SenPlayerBase, SenPlayerParams(info, p));
  }
}
