/**
 * The naming rules the downloaders share: title and file-name sanitisers
 * (a chain of single-character `replace(c, " ")` calls followed by
 * `strip()`), the extension taken from a URL, and the quality order used to
 * pick a video file URL.
 */
module Naming {
  import opened Wrappers
  import opened Text
  import opened JsonValues

  /** `s.replace(cs[0], " ")...replace(cs[n-1], " ").strip()`. */
  function Sanitize(s: string, cs: seq<char>): string {
    Strip(ReplaceEach(s, cs, ' '))
  }

  /**
   * What a sanitiser guarantees: none of the replaced characters is left,
   * there is no whitespace at either end, and the text never grows.
   */
  lemma SanitizeClean(s: string, cs: seq<char>)
    requires ' ' !in cs
    ensures var r := Sanitize(s, cs);
      (forall i :: 0 <= i < |r| ==> r[i] !in cs) && Trimmed(r) && |r| <= |s|
  {
    var t := ReplaceEach(s, cs, ' ');
    assert forall c :: c in t ==> c !in cs;
  }

  /** Sanitising twice is sanitising once. */
  lemma {:induction false} SanitizeIdempotent(s: string, cs: seq<char>)
    requires ' ' !in cs
    ensures Sanitize(Sanitize(s, cs), cs) == Sanitize(s, cs)
  {
    var r := Sanitize(s, cs);
    SanitizeClean(s, cs);
    assert ReplaceEach(r, cs, ' ') == r;
    StripTrimmed(r);
  }

  /** The result depends only on which characters are replaced, not on the order of the `replace` calls. */
  lemma {:induction false} SanitizeSameSet(s: string, cs: seq<char>, ds: seq<char>)
    requires forall c :: c in cs <==> c in ds
    ensures Sanitize(s, cs) == Sanitize(s, ds)
  {
    assert ReplaceEach(s, cs, ' ') == ReplaceEach(s, ds, ' ');
  }

  /** A character of the input that no `replace` touches survives, unless it is edge whitespace. */
  lemma {:induction false} SanitizeKeeps(s: string, cs: seq<char>)
    requires ' ' !in cs && Trimmed(s) && forall i :: 0 <= i < |s| ==> s[i] !in cs
    ensures Sanitize(s, cs) == s
  {
    assert ReplaceEach(s, cs, ' ') == s;
    StripTrimmed(s);
  }

  /** The text of a URL before the first '?', i.e. `url.split("?")[0]`. */
  function PathOf(url: string): (p: string)
    ensures '?' !in p
    ensures |p| <= |url| && p == url[..|p|]
  {
    var r := Split(url, '?');
    if '?' in url then
      var i := IndexOf(url, '?');
      assert r[0] == url[..i];
      r[0]
    else
      r[0]
  }

  predicate AllAlnum(s: string) {
    forall i :: 0 <= i < |s| ==> IsAlnum(s[i])
  }

  predicate NoUpper(s: string) {
    forall i :: 0 <= i < |s| ==> !('A' <= s[i] <= 'Z')
  }

  /**
   * `_ext_from_url(url, default)`: the lower-cased text after the last '.' of
   * the URL's path, when that is 1 to 5 alphanumerics; otherwise `default`.
   */
  function ExtFromUrl(url: string, default: string): (r: string)
    ensures r == default || (1 <= |r| <= 5 && AllAlnum(r) && NoUpper(r))
    ensures '.' !in PathOf(url) ==> r == default
  {
    var path := PathOf(url);
    if '.' in path then
      var ext := Lower(AfterLast(path, '.'));
      if 1 <= |ext| <= 5 && AllAlnum(ext) then ext else default
    else default
  }

  lemma {:induction false} PathOfPlain(s: string)
    requires '?' !in s
    ensures PathOf(s) == s
  {
  }

  lemma {:induction false} PathOfQuery(s: string, query: string)
    requires '?' !in s
    ensures PathOf(s + "?" + query) == s
  {
    var u := s + "?" + query;
    assert u[|s|] == '?';
  }

  lemma {:induction false} AfterLastOf(p: string, e: string, sep: char)
    requires sep !in e
    ensures AfterLast(p + [sep] + e, sep) == e
  {
    var s := p + [sep] + e;
    var r := AfterLast(s, sep);
    assert s[|p|] == sep;
    assert r == s[|s| - |r|..] == e;
  }

  lemma {:induction false} ExtOfPath(url: string, stem: string, e: string, default: string)
    requires PathOf(url) == stem + "." + e && '.' !in e
    requires 1 <= |e| <= 5 && AllAlnum(e)
    ensures ExtFromUrl(url, default) == Lower(e)
  {
    var path := stem + "." + e;
    assert path[|stem|] == '.';
    AfterLastOf(stem, e, '.');
    var ext := Lower(e);
    assert forall i :: 0 <= i < |ext| ==> ext[i] == LowerChar(e[i]);
    assert AllAlnum(ext);
  }

  /**
   * A URL whose path ends in `.e`, for 1 to 5 alphanumerics `e`, has the
   * extension `e` lower-cased, whatever query follows.
   */
  lemma {:induction false} ExtFromUrlOf(stem: string, e: string, query: string, default: string)
    requires '?' !in stem && '?' !in e && '.' !in e
    requires 1 <= |e| <= 5 && AllAlnum(e)
    ensures ExtFromUrl(stem + "." + e, default) == Lower(e)
    ensures ExtFromUrl(stem + "." + e + "?" + query, default) == Lower(e)
  {
    var p := stem + "." + e;
    assert '?' !in p;
    PathOfPlain(p);
    PathOfQuery(p, query);
    ExtOfPath(p, stem, e, default);
    ExtOfPath(p + "?" + query, stem, e, default);
  }

  /** The file keys of a VK video, best quality first. */
  const QualityOrder: seq<string> := ["mp4_2160", "mp4_1440", "mp4_1080", "mp4_720", "mp4_480", "mp4_360"]

  /** The value `fields.get(key)` when it is a non-empty string. */
  predicate HasUrlAt(fields: seq<(string, Json)>, key: string) {
    Lookup(fields, key).Some? && IsNonEmptyStr(Lookup(fields, key).value)
  }

  /** The first key of `keys` whose value is a non-empty string, and that string. */
  function FirstQuality(fields: seq<(string, Json)>, keys: seq<string>): (r: Option<string>)
    ensures r.Some? ==> exists i :: 0 <= i < |keys| && HasUrlAt(fields, keys[i])
                                 && Lookup(fields, keys[i]).value == Str(r.value)
                                 && forall j :: 0 <= j < i ==> !HasUrlAt(fields, keys[j])
    ensures r.None? ==> forall i :: 0 <= i < |keys| ==> !HasUrlAt(fields, keys[i])
  {
    if keys == [] then None
    else if HasUrlAt(fields, keys[0]) then Some(Lookup(fields, keys[0]).value.s)
    else
      var r := FirstQuality(fields, keys[1..]);
      assert forall i :: 1 <= i < |keys| ==> keys[i] == keys[1..][i - 1];
      if r.Some? then
        var i :| 0 <= i < |keys[1..]| && HasUrlAt(fields, keys[1..][i])
          && Lookup(fields, keys[1..][i]).value == Str(r.value)
          && forall j :: 0 <= j < i ==> !HasUrlAt(fields, keys[1..][j]);
        assert forall j :: 0 <= j < i + 1 ==> !HasUrlAt(fields, keys[j]) by {
          forall j | 0 <= j < i + 1 ensures !HasUrlAt(fields, keys[j]) {
            if j > 0 { assert keys[j] == keys[1..][j - 1]; }
          }
        }
        r
      else r
  }

  predicate IsHttp(v: Json) {
    v.Str? && StartsWith(v.s, "http")
  }

  /** The first value, in insertion order, that is a string starting with "http". */
  function FirstHttp(fields: seq<(string, Json)>): (r: Option<string>)
    ensures r.Some? ==> exists k :: 0 <= k < |fields| && fields[k].1 == Str(r.value) && IsHttp(fields[k].1)
                                 && forall j :: 0 <= j < k ==> !IsHttp(fields[j].1)
    ensures r.None? ==> forall k :: 0 <= k < |fields| ==> !IsHttp(fields[k].1)
  {
    if fields == [] then None
    else if IsHttp(fields[0].1) then Some(fields[0].1.s)
    else
      var r := FirstHttp(fields[1..]);
      assert forall k :: 1 <= k < |fields| ==> fields[k] == fields[1..][k - 1];
      if r.Some? then
        var k :| 0 <= k < |fields[1..]| && fields[1..][k].1 == Str(r.value) && IsHttp(fields[1..][k].1)
          && forall j :: 0 <= j < k ==> !IsHttp(fields[1..][j].1);
        assert forall j :: 0 <= j < k + 1 ==> !IsHttp(fields[j].1) by {
          forall j | 0 <= j < k + 1 ensures !IsHttp(fields[j].1) {
            if j > 0 { assert fields[j] == fields[1..][j - 1]; }
          }
        }
        r
      else r
  }

  /**
   * The selection over a `files` dict: the first quality key holding a
   * non-empty string, else the first value starting with "http", else nothing.
   */
  function SelectFromFiles(fields: seq<(string, Json)>): (r: Option<string>)
    ensures r.Some? ==> r.value != "" && Str(r.value) in Values(fields)
    ensures r.None? <==> ((forall i :: 0 <= i < |QualityOrder| ==> !HasUrlAt(fields, QualityOrder[i]))
                          && (forall k :: 0 <= k < |fields| ==> !IsHttp(fields[k].1)))
  {
    var q := FirstQuality(fields, QualityOrder);
    if q.Some? then
      assert Str(q.value) in Values(fields) by {
        var i :| 0 <= i < |QualityOrder| && HasUrlAt(fields, QualityOrder[i]) && Lookup(fields, QualityOrder[i]).value == Str(q.value);
        ValueOfLookup(fields, QualityOrder[i]);
      }
      q
    else
      var h := FirstHttp(fields);
      if h.Some? then
        var k :| 0 <= k < |fields| && fields[k].1 == Str(h.value) && IsHttp(fields[k].1);
        assert Values(fields)[k] == Str(h.value);
        h
      else h
  }

  /** The values of a dict, in insertion order. */
  function Values(fields: seq<(string, Json)>): (vs: seq<Json>)
    ensures |vs| == |fields| && forall k :: 0 <= k < |fields| ==> vs[k] == fields[k].1
  {
    seq(|fields|, k requires 0 <= k < |fields| => fields[k].1)
  }

  lemma ValueOfLookup(fields: seq<(string, Json)>, key: string)
    requires Lookup(fields, key).Some?
    ensures Lookup(fields, key).value in Values(fields)
  {
    var k :| 0 <= k < |fields| && fields[k] == (key, Lookup(fields, key).value);
    assert Values(fields)[k] == Lookup(fields, key).value;
  }

  /** The best quality wins: the first key of the quality order holding a URL is the one chosen. */
  lemma {:induction false} SelectPrefersQuality(fields: seq<(string, Json)>, i: nat)
    requires i < |QualityOrder| && HasUrlAt(fields, QualityOrder[i])
    requires forall j :: 0 <= j < i ==> !HasUrlAt(fields, QualityOrder[j])
    ensures SelectFromFiles(fields) == Some(Lookup(fields, QualityOrder[i]).value.s)
  {
    var q := FirstQuality(fields, QualityOrder);
    var i' :| 0 <= i' < |QualityOrder| && HasUrlAt(fields, QualityOrder[i'])
      && Lookup(fields, QualityOrder[i']).value == Str(q.value)
      && forall j :: 0 <= j < i' ==> !HasUrlAt(fields, QualityOrder[j]);
    assert i' == i;
  }

  /** What reading a photo's best size gives. */
  datatype SizeUrl =
    | NoSizes           // `p.get("sizes") or []` is falsy: the item is skipped
    | SizeUrl(url: Json) // `sizes[-1].get("url")`
    | SizeRaises        // `p`, `sizes[-1]` or the size is of a type the expression raises on

  /** `sizes = p.get("sizes") or []`, then `sizes[-1].get("url")` when `sizes` is truthy. */
  function LastSizeUrl(p: Json): (r: SizeUrl)
    ensures !p.Obj? ==> r == SizeRaises
    ensures p.Obj? && !Truthy(Field(p, "sizes")) ==> r == NoSizes
    ensures p.Obj? && Field(p, "sizes").Arr? && Field(p, "sizes").items != [] ==>
      var best := Field(p, "sizes").items[|Field(p, "sizes").items| - 1];
      r == if best.Obj? then SizeUrl(Field(best, "url")) else SizeRaises
  {
    match Get(p, "sizes", Null)
    case None => SizeRaises
    case Some(sz) =>
      var sizes := Or(sz, Arr([]));
      if !Truthy(sizes) then NoSizes
      else
        match Last(sizes)
        case None => SizeRaises
        case Some(best) =>
          match Get(best, "url", Null)
          case None => SizeRaises
          case Some(u) => SizeUrl(u)
  }

  /** `max(1, int(concurrency))`: the number of downloads allowed at once. */
  function Concurrency(n: int): (r: int)
    ensures r >= 1
    ensures n >= 1 ==> r == n
  {
    if n < 1 then 1 else n
  }
}
