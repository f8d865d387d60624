/**
 * `WallDownloader`: community wall posts, filtered by a since/until date
 * window and capped by `max_items`, with the photo links of the kept posts,
 * paged by 100 from a resumed offset.
 */
module Wall {
  import opened Wrappers
  import opened Text
  import opened JsonValues
  import opened Paging

  const PageSize: nat := 100

  // ---------------------------------------------------------------------
  // Calendar arithmetic (proleptic Gregorian, as Python's datetime)
  // ---------------------------------------------------------------------

  predicate IsLeap(y: int) {
    y % 4 == 0 && (y % 100 != 0 || y % 400 == 0)
  }

  function DaysInMonth(y: int, m: int): (n: int)
    requires 1 <= m <= 12
    ensures 28 <= n <= 31
  {
    if m == 2 then (if IsLeap(y) then 29 else 28)
    else if m == 4 || m == 6 || m == 9 || m == 11 then 30
    else 31
  }

  function DaysInYear(y: int): int {
    if IsLeap(y) then 366 else 365
  }

  /** Days in the months of year `y` before month `m`. */
  function DaysBeforeMonth(y: int, m: int): (n: int)
    requires 1 <= m <= 12
    ensures n + DaysInMonth(y, m) <= DaysInYear(y)
  {
    var table := [0, 31, 59, 90, 120, 151, 181, 212, 243, 273, 304, 334];
    table[m - 1] + (if m > 2 && IsLeap(y) then 1 else 0)
  }

  /** Days before January 1st of year `y`, counting from January 1st of year 1. */
  function DaysBeforeYear(y: int): int
    requires y >= 1
  {
    var p := y - 1;
    p * 365 + p / 4 - p / 100 + p / 400
  }

  lemma YearStep(y: int)
    requires y >= 1
    ensures DaysBeforeYear(y + 1) == DaysBeforeYear(y) + DaysInYear(y)
  {
    var p := y - 1;
    assert y / 4 == p / 4 + (if y % 4 == 0 then 1 else 0);
    assert y / 100 == p / 100 + (if y % 100 == 0 then 1 else 0);
    assert y / 400 == p / 400 + (if y % 400 == 0 then 1 else 0);
  }

  lemma {:induction false} YearsIncrease(y: int, y': int)
    requires 1 <= y < y'
    ensures DaysBeforeYear(y) + DaysInYear(y) <= DaysBeforeYear(y')
    decreases y' - y
  {
    YearStep(y);
    if y + 1 < y' {
      YearsIncrease(y + 1, y');
    }
  }

  predicate ValidDate(y: int, m: int, d: int) {
    1 <= y <= 9999 && 1 <= m <= 12 && 1 <= d <= DaysInMonth(y, m)
  }

  /** The proleptic Gregorian ordinal of a date; January 1st of year 1 is 1. */
  function Ordinal(y: int, m: int, d: int): int
    requires ValidDate(y, m, d)
  {
    DaysBeforeYear(y) + DaysBeforeMonth(y, m) + d
  }

  /** Seconds since the Unix epoch at UTC midnight of a date; 719163 is the ordinal of 1970-01-01. */
  function Timestamp(y: int, m: int, d: int): (t: int)
    requires ValidDate(y, m, d)
    ensures t % 86400 == 0
  {
    (Ordinal(y, m, d) - 719163) * 86400
  }

  predicate DateBefore(y: int, m: int, d: int, y': int, m': int, d': int) {
    y < y' || (y == y' && (m < m' || (m == m' && d < d')))
  }

  lemma MonthStep(y: int, m: int)
    requires 1 <= m < 12
    ensures DaysBeforeMonth(y, m + 1) == DaysBeforeMonth(y, m) + DaysInMonth(y, m)
  {
  }

  lemma {:induction false} MonthsIncrease(y: int, m: int, m': int)
    requires 1 <= m < m' <= 12
    ensures DaysBeforeMonth(y, m) + DaysInMonth(y, m) <= DaysBeforeMonth(y, m')
    decreases m' - m
  {
    MonthStep(y, m);
    if m + 1 < m' {
      MonthsIncrease(y, m + 1, m');
    }
  }

  /** A later date has a larger ordinal. */
  lemma OrdinalIncreasing(y: int, m: int, d: int, y': int, m': int, d': int)
    requires ValidDate(y, m, d) && ValidDate(y', m', d') && DateBefore(y, m, d, y', m', d')
    ensures Ordinal(y, m, d) < Ordinal(y', m', d')
  {
    if y < y' {
      YearsIncrease(y, y');
    } else if m < m' {
      MonthsIncrease(y, m, m');
    }
  }

  /** The UTC timestamps of dates are whole days apart and strictly increase with the date. */
  lemma TimestampIncreasing(y: int, m: int, d: int, y': int, m': int, d': int)
    requires ValidDate(y, m, d) && ValidDate(y', m', d') && DateBefore(y, m, d, y', m', d')
    ensures Timestamp(y, m, d) + 86400 <= Timestamp(y', m', d')
    ensures Timestamp(y, m, d) % 86400 == 0 && Timestamp(y', m', d') % 86400 == 0
  {
    OrdinalIncreasing(y, m, d, y', m', d');
  }

  // ---------------------------------------------------------------------
  // `_parse_date`: strptime with "%Y-%m-%d"
  // ---------------------------------------------------------------------

  function DigitVal(c: char): int {
    c as int - '0' as int
  }

  /** The text strptime's `%Y` accepts: exactly four digits. */
  function YearToken(t: string): Option<int> {
    if |t| == 4 && AllDigits(t) then Some(1000 * DigitVal(t[0]) + 100 * DigitVal(t[1]) + 10 * DigitVal(t[2]) + DigitVal(t[3]))
    else None
  }

  /** The text strptime's `%m` accepts: `1[0-2]`, `0[1-9]` or `[1-9]`. */
  function MonthToken(t: string): (r: Option<int>)
    ensures r.Some? ==> 1 <= r.value <= 12
  {
    if |t| == 2 && t[0] == '1' && '0' <= t[1] <= '2' then Some(10 + DigitVal(t[1]))
    else if |t| == 2 && t[0] == '0' && '1' <= t[1] <= '9' then Some(DigitVal(t[1]))
    else if |t| == 1 && '1' <= t[0] <= '9' then Some(DigitVal(t[0]))
    else None
  }

  /** The text strptime's `%d` accepts: `3[01]`, `[12]\d`, `0[1-9]`, `[1-9]` or a space and `[1-9]`. */
  function DayToken(t: string): (r: Option<int>)
    ensures r.Some? ==> 1 <= r.value <= 31
  {
    if |t| == 2 && t[0] == '3' && '0' <= t[1] <= '1' then Some(30 + DigitVal(t[1]))
    else if |t| == 2 && '1' <= t[0] <= '2' && IsDigit(t[1]) then Some(10 * DigitVal(t[0]) + DigitVal(t[1]))
    else if |t| == 2 && (t[0] == '0' || t[0] == ' ') && '1' <= t[1] <= '9' then Some(DigitVal(t[1]))
    else if |t| == 1 && '1' <= t[0] <= '9' then Some(DigitVal(t[0]))
    else None
  }

  /** The year, month and day the format matches in the whole of `s`, before the calendar check. */
  function ParseYmd(s: string): Option<(int, int, int)> {
    if |s| < 5 || s[4] != '-' then None
    else
      var rest := s[5..];
      if '-' !in rest then None
      else
        var i := IndexOf(rest, '-');
        var y := YearToken(s[..4]);
        var m := MonthToken(rest[..i]);
        var d := DayToken(rest[i + 1..]);
        if y.Some? && m.Some? && d.Some? then Some((y.value, m.value, d.value)) else None
  }

  datatype DateParse =
    | NoDate          // None or "": no bound
    | Stamp(ts: int)  // UTC midnight of the date, in seconds
    | BadDate         // strptime or datetime raises ValueError

  /** `_parse_date`. */
  function ParseDate(s: Option<string>): (r: DateParse)
    ensures s.None? || s == Some("") ==> r == NoDate
    ensures r.Stamp? ==> r.ts % 86400 == 0
  {
    if s.None? || s.value == "" then NoDate
    else
      match ParseYmd(s.value)
      case None => BadDate
      case Some((y, m, d)) => if ValidDate(y, m, d) then Stamp(Timestamp(y, m, d)) else BadDate
  }

  function Digit(n: int): char
    requires 0 <= n <= 9
  {
    ('0' as int + n) as char
  }

  function Pad2(n: int): string
    requires 0 <= n <= 99
  {
    [Digit(n / 10), Digit(n % 10)]
  }

  function Pad4(n: int): string
    requires 0 <= n <= 9999
  {
    Pad2(n / 100) + Pad2(n % 100)
  }

  lemma Pad2Value(n: int)
    requires 0 <= n <= 99
    ensures 10 * DigitVal(Pad2(n)[0]) + DigitVal(Pad2(n)[1]) == n
  {
  }

  /** The zero-padded "YYYY-MM-DD" text of a date. */
  function Iso(y: int, m: int, d: int): string
    requires ValidDate(y, m, d)
  {
    Pad4(y) + "-" + Pad2(m) + "-" + Pad2(d)
  }

  lemma YearOfPad4(y: int)
    requires 0 <= y <= 9999
    ensures YearToken(Pad4(y)) == Some(y)
  {
    var t := Pad4(y);
    Pad2Value(y / 100);
    Pad2Value(y % 100);
    assert t[0] == Pad2(y / 100)[0] && t[1] == Pad2(y / 100)[1];
    assert t[2] == Pad2(y % 100)[0] && t[3] == Pad2(y % 100)[1];
    assert 100 * (y / 100) + y % 100 == y;
  }

  lemma MonthOfPad2(m: int)
    requires 1 <= m <= 12
    ensures MonthToken(Pad2(m)) == Some(m)
  {
  }

  lemma DayOfPad2(d: int)
    requires 1 <= d <= 31
    ensures DayToken(Pad2(d)) == Some(d)
  {
  }

  /** Every date written "YYYY-MM-DD" parses to the UTC midnight timestamp of that date. */
  lemma ParseIso(y: int, m: int, d: int)
    requires ValidDate(y, m, d)
    ensures ParseDate(Some(Iso(y, m, d))) == Stamp(Timestamp(y, m, d))
  {
    var s := Iso(y, m, d);
    assert s[..4] == Pad4(y) && s[4] == '-';
    var rest := s[5..];
    assert rest == Pad2(m) + "-" + Pad2(d);
    assert rest[2] == '-' && '-' !in rest[..2];
    assert IndexOf(rest, '-') == 2;
    assert rest[..2] == Pad2(m) && rest[3..] == Pad2(d);
    YearOfPad4(y);
    MonthOfPad2(m);
    DayOfPad2(d);
    assert ParseYmd(s) == Some((y, m, d));
  }

  // ---------------------------------------------------------------------
  // Post filters and photo extraction
  // ---------------------------------------------------------------------

  datatype Filters = Filters(since: Option<int>, until: Option<int>, max: Option<int>)

  /** `int(post.get("date", 0))`; `None` when `post` is not a dict or `int()` raises. */
  function DateOf(post: Json): (r: Option<int>)
    ensures r.Some? ==> post.Obj?
    ensures post.Obj? && Lookup(post.fields, "date").None? ==> r == Some(0)
  {
    match Get(post, "date", Int(0))
    case None => None
    case Some(v) => ToInt(v)
  }

  /** `_post_passes_filters`; `None` when reading the date raises. */
  function Passes(post: Json, f: Filters): (r: Option<bool>)
    ensures r.Some? <==> DateOf(post).Some?
    ensures r.Some? ==> (r.value <==>
      (f.since.None? || DateOf(post).value >= f.since.value) && (f.until.None? || DateOf(post).value <= f.until.value))
  {
    match DateOf(post)
    case None => None
    case Some(ts) =>
      Some(!(f.since.Some? && ts < f.since.value) && !(f.until.Some? && ts > f.until.value))
  }

  /**
   * A bound given as a date is that day's UTC midnight, so a post made later
   * on the `until` day does not pass, while one at any time of the `since`
   * day does.
   */
  lemma DayBounds(y: int, m: int, d: int, post: Json, seconds: int, f: Filters)
    requires ValidDate(y, m, d) && 0 <= seconds < 86400
    requires DateOf(post) == Some(Timestamp(y, m, d) + seconds)
    requires ParseDate(Some(Iso(y, m, d))).Stamp?
    ensures f.since == Some(ParseDate(Some(Iso(y, m, d))).ts) && f.until.None? ==> Passes(post, f) == Some(true)
    ensures f.until == Some(ParseDate(Some(Iso(y, m, d))).ts) ==> (Passes(post, f) == Some(true) ==> seconds == 0)
  {
    ParseIso(y, m, d);
  }

  /** `att.get("photo", {})` on an attachment that is a dict. */
  function PhotoOf(att: Json): Json
    requires att.Obj?
  {
    Lookup(att.fields, "photo").GetOr(Obj([]))
  }

  /** A photo attachment whose photo is a dict with a non-empty list of sizes, the last of them a dict. */
  predicate SizesReadable(att: Json) {
    && att.Obj? && Field(att, "type") == Str("photo")
    && PhotoOf(att).Obj? && Field(PhotoOf(att), "sizes").Arr? && Field(PhotoOf(att), "sizes").items != []
    && LastSize(att).Obj?
  }

  /** The last (largest) entry of the photo's sizes. */
  function LastSize(att: Json): Json
    requires att.Obj? && PhotoOf(att).Obj? && Field(PhotoOf(att), "sizes").Arr? && Field(PhotoOf(att), "sizes").items != []
  {
    var items := Field(PhotoOf(att), "sizes").items;
    items[|items| - 1]
  }

  /** The link the downloader records for a usable photo attachment. */
  function LinkOf(post: Json, att: Json): Json
    requires post.Obj? && SizesReadable(att)
  {
    var photo := PhotoOf(att);
    Obj([("post_id", Field(post, "id")), ("photo_id", Field(photo, "id")),
         ("owner_id", Field(photo, "owner_id")), ("url", Field(LastSize(att), "url"))])
  }

  /** One attachment's photo link: `None` when reading it raises, `Some(None)` when it is skipped. */
  function AttLink(post: Json, att: Json): (r: Option<Option<Json>>)
    requires post.Obj?
    ensures r.Some? && r.value.Some? ==> IsLinkOf(post, r.value.value)
  {
    match Get(att, "type", Null)
    case None => None
    case Some(t) =>
      if t != Str("photo") then Some(None)
      else
        var photo := Get(att, "photo", Obj([])).value;
        match Get(photo, "sizes", Null)
        case None => None
        case Some(sz) =>
          var sizes := Or(sz, Arr([]));
          if !Truthy(sizes) then Some(None)
          else
            match Last(sizes)
            case None => None
            case Some(best) =>
              match Get(best, "url", Null)
              case None => None
              case Some(url) =>
                if !Truthy(url) then Some(None)
                else Some(Some(Obj([("post_id", Field(post, "id")), ("photo_id", Field(photo, "id")),
                                    ("owner_id", Field(photo, "owner_id")), ("url", url)])))
  }

  /**
   * A link is recorded exactly for a photo whose last size has a truthy URL,
   * and it is that URL with the post, photo and owner ids; another type, a
   * photo with no sizes, or one whose last size has a falsy URL, is skipped.
   */
  lemma AttLinkExact(post: Json, att: Json)
    requires post.Obj?
    ensures AttLink(post, att).Some? && AttLink(post, att).value.Some? <==> SizesReadable(att) && Truthy(Field(LastSize(att), "url"))
    ensures AttLink(post, att).Some? && AttLink(post, att).value.Some? ==> AttLink(post, att).value.value == LinkOf(post, att)
    ensures att.Obj? && Field(att, "type") != Str("photo") ==> AttLink(post, att) == Some(None)
    ensures att.Obj? && Field(att, "type") == Str("photo") && PhotoOf(att).Obj? && !Truthy(Field(PhotoOf(att), "sizes")) ==> AttLink(post, att) == Some(None)
    ensures SizesReadable(att) && !Truthy(Field(LastSize(att), "url")) ==> AttLink(post, att) == Some(None)
  {
    if att.Obj? {
      assert Get(att, "type", Null) == Some(Field(att, "type"));
      if Field(att, "type") == Str("photo") {
        var photo := PhotoOf(att);
        assert Get(att, "photo", Obj([])) == Some(photo);
        if photo.Obj? {
          var sizes := Field(photo, "sizes");
          assert Get(photo, "sizes", Null) == Some(sizes);
          if Truthy(sizes) && sizes.Arr? {
            var best := LastSize(att);
            assert Or(sizes, Arr([])) == sizes && Last(sizes) == Some(best);
            if best.Obj? {
              assert Get(best, "url", Null) == Some(Field(best, "url"));
            }
          } else if !Truthy(sizes) {
            assert Or(sizes, Arr([])) == Arr([]);
          }
        }
      }
    }
  }

  /** A link read from the post: an object carrying the post's id and a truthy URL. */
  predicate IsLinkOf(post: Json, link: Json)
    requires post.Obj?
  {
    && link.Obj? && |link.fields| == 4
    && link.fields[0] == ("post_id", Field(post, "id"))
    && link.fields[1].0 == "photo_id" && link.fields[2].0 == "owner_id"
    && link.fields[3].0 == "url" && Truthy(link.fields[3].1)
  }

  function ExtractFrom(post: Json, atts: seq<Json>): (r: Option<seq<Json>>)
    requires post.Obj?
    ensures r.Some? ==> |r.value| <= |atts| && forall k :: 0 <= k < |r.value| ==> IsLinkOf(post, r.value[k])
  {
    if atts == [] then Some([])
    else
      match AttLink(post, atts[0])
      case None => None
      case Some(link) =>
        match ExtractFrom(post, atts[1..])
        case None => None
        case Some(rest) => Some((if link.Some? then [link.value] else []) + rest)
  }

  /** `_extract_photo_attachments(post)`; `None` when it raises. */
  function Extract(post: Json): (r: Option<seq<Json>>)
    ensures !post.Obj? ==> r == None
    ensures post.Obj? && !Field(post, "attachments").Arr? ==> r == Some([])
    ensures r.Some? ==> forall k :: 0 <= k < |r.value| ==> IsLinkOf(post, r.value[k])
  {
    if !post.Obj? then None
    else
      var atts := Field(post, "attachments");
      if !atts.Arr? then Some([]) else ExtractFrom(post, atts.items)
  }

  /** The attachment VK sends for a photo with one size at `url`. */
  function PhotoAttachment(id: Json, owner: Json, url: string): Json {
    Obj([("type", Str("photo")), ("photo", Obj([("id", id), ("owner_id", owner), ("sizes", Arr([Obj([("url", Str(url))])]))]))])
  }

  function LinkFor(post: Json, id: Json, owner: Json, url: string): Json
    requires post.Obj?
  {
    Obj([("post_id", Field(post, "id")), ("photo_id", id), ("owner_id", owner), ("url", Str(url))])
  }

  /** A well-formed photo attachment gives its link. */
  lemma PhotoLink(post: Json, id: Json, owner: Json, url: string)
    requires post.Obj? && url != ""
    ensures AttLink(post, PhotoAttachment(id, owner, url)) == Some(Some(LinkFor(post, id, owner, url)))
  {
    var att := PhotoAttachment(id, owner, url);
    var photo := Obj([("id", id), ("owner_id", owner), ("sizes", Arr([Obj([("url", Str(url))])]))]);
    var best := Obj([("url", Str(url))]);
    LookupAt(att.fields, 0);
    LookupAt(att.fields, 1);
    assert Get(att, "type", Null) == Some(Str("photo"));
    assert Get(att, "photo", Obj([])) == Some(photo);
    LookupAt(photo.fields, 2);
    assert Get(photo, "sizes", Null) == Some(Arr([best]));
    assert Last(Arr([best])) == Some(best);
    LookupAt(best.fields, 0);
    assert Get(best, "url", Null) == Some(Str(url));
    LookupAt(photo.fields, 0);
    LookupAt(photo.fields, 1);
  }

  /** The links of usable photo attachments, in order. */
  function LinksOf(post: Json, atts: seq<Json>): (links: seq<Json>)
    requires post.Obj?
    requires forall k :: 0 <= k < |atts| ==> SizesReadable(atts[k])
    ensures |links| == |atts|
  {
    if atts == [] then [] else [LinkOf(post, atts[0])] + LinksOf(post, atts[1..])
  }

  /**
   * Photo attachments with any non-empty list of sizes whose last entry has
   * a truthy URL come back as one link each, in order, each carrying the
   * post id, the photo id, the owner id and that URL.
   */
  lemma {:induction false} ExtractPhotos(post: Json, atts: seq<Json>)
    requires post.Obj?
    requires forall k :: 0 <= k < |atts| ==> SizesReadable(atts[k]) && Truthy(Field(LastSize(atts[k]), "url"))
    ensures ExtractFrom(post, atts) == Some(LinksOf(post, atts))
  {
    if atts != [] {
      AttLinkExact(post, atts[0]);
      ExtractPhotos(post, atts[1..]);
      ExtractLinkCons(post, atts, LinkOf(post, atts[0]), LinksOf(post, atts[1..]));
    }
  }

  /** One attachment that yields a link, ahead of attachments that yield `rest`. */
  lemma ExtractLinkCons(post: Json, atts: seq<Json>, link: Json, rest: seq<Json>)
    requires post.Obj? && atts != []
    requires AttLink(post, atts[0]) == Some(Some(link)) && ExtractFrom(post, atts[1..]) == Some(rest)
    ensures ExtractFrom(post, atts) == Some([link] + rest)
  {
  }

  /** Attachments of another type add nothing to the links. */
  lemma NonPhotoSkipped(post: Json, att: Json, atts: seq<Json>)
    requires post.Obj? && att.Obj? && Field(att, "type") != Str("photo")
    ensures ExtractFrom(post, [att] + atts) == ExtractFrom(post, atts)
  {
    AttLinkExact(post, att);
    SkippedAddsNothing(post, att, atts);
  }

  /** A photo with no sizes, or whose last size has a falsy URL, adds nothing to the links. */
  lemma UnusablePhotoSkipped(post: Json, att: Json, atts: seq<Json>)
    requires post.Obj? && att.Obj? && Field(att, "type") == Str("photo") && PhotoOf(att).Obj?
    requires !Truthy(Field(PhotoOf(att), "sizes")) || (SizesReadable(att) && !Truthy(Field(LastSize(att), "url")))
    ensures ExtractFrom(post, [att] + atts) == ExtractFrom(post, atts)
  {
    AttLinkExact(post, att);
    SkippedAddsNothing(post, att, atts);
  }

  /** An attachment that is skipped leaves the links of the rest as they are. */
  lemma SkippedAddsNothing(post: Json, att: Json, atts: seq<Json>)
    requires post.Obj? && AttLink(post, att) == Some(None)
    ensures ExtractFrom(post, [att] + atts) == ExtractFrom(post, atts)
  {
    assert ([att] + atts)[1..] == atts;
    var rest := ExtractFrom(post, atts);
    if rest.Some? {
      assert [] + rest.value == rest.value;
    }
  }

  // ---------------------------------------------------------------------
  // `run`
  // ---------------------------------------------------------------------

  datatype WallState = WallState(posts: seq<Json>, links: seq<Json>)

  predicate Capped(f: Filters, st: WallState) {
    f.max.Some? && |st.posts| >= f.max.value
  }

  /** The photo links of one post; none when reading them raises. */
  function PostLinks(post: Json): seq<Json> {
    Extract(post).GetOr([])
  }

  /** What `g` gives for each post, concatenated in order. */
  function ConcatMap(posts: seq<Json>, g: Json -> seq<Json>): seq<Json> {
    if posts == [] then [] else g(posts[0]) + ConcatMap(posts[1..], g)
  }

  /** The photo links of a list of posts, concatenated in order. */
  function AllLinks(posts: seq<Json>): seq<Json> {
    ConcatMap(posts, PostLinks)
  }

  /**
   * The loop over one page's posts: keep the posts that pass (every post,
   * when `check` is off because the page was filtered already), add each
   * kept post's links, and stop once the cap is reached. `None` when a post
   * raises.
   */
  function ProcessPosts(items: seq<Json>, f: Filters, check: bool, st: WallState): Option<WallState>
    decreases |items|
  {
    if items == [] then Some(st)
    else
      var pass := if check then Passes(items[0], f) else Some(true);
      if pass.None? then None
      else if !pass.value then ProcessPosts(items[1..], f, check, st)
      else
        match Extract(items[0])
        case None => None
        case Some(links) =>
          var st' := WallState(st.posts + [items[0]], st.links + links);
          if Capped(f, st') then Some(st') else ProcessPosts(items[1..], f, check, st')
  }

  /** `[p for p in items if self._post_passes_filters(p)]`; `None` when a test raises. */
  function FilterPosts(items: seq<Json>, f: Filters): (r: Option<seq<Json>>)
    ensures r.Some? ==> forall k :: 0 <= k < |r.value| ==> Passes(r.value[k], f) == Some(true)
  {
    if items == [] then Some([])
    else
      match Passes(items[0], f)
      case None => None
      case Some(b) =>
        match FilterPosts(items[1..], f)
        case None => None
        case Some(rest) => Some((if b then [items[0]] else []) + rest)
  }

  /** The end of a run: the posts and links collected (`None` when it raised) and the offsets persisted. */
  datatype WallOutcome = WallOutcome(result: Option<WallState>, persisted: seq<int>)

  /**
   * The paging loop from `offset`: stop on an empty page; when the last post
   * of the page is older than `since`, keep the page's passing posts and stop;
   * otherwise process the page, stop at the cap or on a short page, and else
   * persist the next offset and go on.
   */
  function WallRun(api: Api, offset: int, f: Filters, st: WallState): WallOutcome
    decreases Remaining(api, offset)
  {
    var items := Page(api, offset);
    if items == [] then WallOutcome(Some(st), [])
    else
      var lastTs := DateOf(items[|items| - 1]);
      if f.since.Some? && lastTs.None? then WallOutcome(None, [])
      else if f.since.Some? && lastTs.value < f.since.value then
        match FilterPosts(items, f)
        case None => WallOutcome(None, [])
        case Some(kept) => WallOutcome(ProcessPosts(kept, f, false, st), [])
      else
        match ProcessPosts(items, f, true, st)
        case None => WallOutcome(None, [])
        case Some(st') =>
          if Capped(f, st') || |items| < PageSize then WallOutcome(Some(st'), [])
          else
            RemainingDecreases(api, offset, offset + PageSize);
            var rest := WallRun(api, offset + PageSize, f, st');
            WallOutcome(rest.result, [offset + PageSize] + rest.persisted)
  }

  /** The state with which a run goes on to the next page, if it does. */
  function Advance(api: Api, offset: int, f: Filters, st: WallState): Option<WallState> {
    var items := Page(api, offset);
    if items == [] then None
    else
      var lastTs := DateOf(items[|items| - 1]);
      if f.since.Some? && (lastTs.None? || lastTs.value < f.since.value) then None
      else
        var r := ProcessPosts(items, f, true, st);
        if r.None? || Capped(f, r.value) || |items| < PageSize then None else r
  }

  /** A run persists nothing unless it advances, and then the next offset followed by what the rest persists. */
  lemma AdvanceStep(api: Api, offset: int, f: Filters, st: WallState)
    ensures Advance(api, offset, f, st).None? ==> WallRun(api, offset, f, st).persisted == []
    ensures Advance(api, offset, f, st).Some? ==>
      |Page(api, offset)| >= PageSize && offset in api &&
      WallRun(api, offset, f, st).persisted == [offset + PageSize] + WallRun(api, offset + PageSize, f, Advance(api, offset, f, st).value).persisted
  {
  }

  /** The loop over one page's posts, as the downloader runs it. */
  method ProcessPage(items: seq<Json>, f: Filters, check: bool, st: WallState) returns (r: Option<WallState>)
    ensures r == ProcessPosts(items, f, check, st)
  {
    var cur := st;
    var i := 0;
    while i < |items|
      invariant 0 <= i <= |items|
      invariant ProcessPosts(items, f, check, st) == ProcessPosts(items[i..], f, check, cur)
    {
      var post := items[i];
      assert items[i..][1..] == items[i + 1..];
      var pass := if check then Passes(post, f) else Some(true);
      if pass.None? {
        return None;
      }
      if pass.value {
        var links := Extract(post);
        if links.None? {
          return None;
        }
        cur := WallState(cur.posts + [post], cur.links + links.value);
        if Capped(f, cur) {
          return Some(cur);
        }
      }
      i := i + 1;
    }
    return Some(cur);
  }

  /** The summary `run` returns. */
  function Summary(st: WallState): Json {
    Obj([("type", Str("wall")), ("items", Int(|st.posts|)), ("photo_links", Int(|st.links|)), ("failures", Int(0))])
  }

  /**
   * `run`: resumes from the "wall" section's offset and pages through the
   * wall; the posts, links and persisted offsets are those of `WallRun`.
   * A run whose resume offset or a post raises returns `None`.
   */
  method Run(api: Api, section: seq<(string, Json)>, f: Filters) returns (result: Option<WallState>, persisted: seq<int>)
    ensures ResumeOffset(section, "offset").None? ==> result.None? && persisted == []
    ensures ResumeOffset(section, "offset").Some? ==>
      WallOutcome(result, persisted) == WallRun(api, ResumeOffset(section, "offset").value, f, WallState([], []))
  {
    var start := ResumeOffset(section, "offset");
    if start.None? {
      return None, [];
    }
    var offset := start.value;
    var st := WallState([], []);
    persisted := [];
    while true
      invariant var w := WallRun(api, offset, f, st);
        WallRun(api, start.value, f, WallState([], [])) == WallOutcome(w.result, persisted + w.persisted)
      decreases Remaining(api, offset)
    {
      var items := Page(api, offset);
      if items == [] {
        break;
      }
      if f.since.Some? {
        var lastTs := DateOf(items[|items| - 1]);
        if lastTs.None? {
          return None, persisted;
        }
        if lastTs.value < f.since.value {
          var kept := FilterPosts(items, f);
          if kept.None? {
            return None, persisted;
          }
          result := ProcessPage(kept.value, f, false, st);
          return result, persisted;
        }
      }
      var r := ProcessPage(items, f, true, st);
      if r.None? {
        return None, persisted;
      }
      if Capped(f, r.value) || |items| < PageSize {
        return r, persisted;
      }
      RemainingDecreases(api, offset, offset + PageSize);
      assert WallRun(api, offset, f, st).persisted == [offset + PageSize] + WallRun(api, offset + PageSize, f, r.value).persisted;
      st := r.value;
      offset := offset + PageSize;
      persisted := persisted + [offset];
    }
    result := Some(st);
  }

  // ---------------------------------------------------------------------
  // What a run guarantees
  // ---------------------------------------------------------------------

  /** The state a run keeps: kept posts pass the filters, and the links are exactly theirs. */
  predicate Consistent(f: Filters, st: WallState) {
    (forall k :: 0 <= k < |st.posts| ==> Passes(st.posts[k], f) == Some(true))
    && st.links == AllLinks(st.posts)
  }

  lemma {:induction false} ConcatMapAppend(posts: seq<Json>, post: Json, g: Json -> seq<Json>)
    ensures ConcatMap(posts + [post], g) == ConcatMap(posts, g) + g(post)
    decreases |posts|
  {
    if posts != [] {
      var all := posts + [post];
      assert all[0] == posts[0] && all[1..] == posts[1..] + [post];
      ConcatMapAppend(posts[1..], post, g);
    } else {
      assert [post][1..] == [];
    }
  }

  lemma AllLinksAppend(posts: seq<Json>, post: Json)
    ensures AllLinks(posts + [post]) == AllLinks(posts) + Extract(post).GetOr([])
  {
    ConcatMapAppend(posts, post, PostLinks);
  }

  lemma {:induction false} ProcessKeepsConsistent(items: seq<Json>, f: Filters, check: bool, st: WallState)
    requires Consistent(f, st)
    requires !check ==> forall k :: 0 <= k < |items| ==> Passes(items[k], f) == Some(true)
    ensures var r := ProcessPosts(items, f, check, st); r.Some? ==> Consistent(f, r.value)
    decreases |items|
  {
    if items != [] {
      assert forall k :: 1 <= k < |items| ==> items[1..][k - 1] == items[k];
      var pass := if check then Passes(items[0], f) else Some(true);
      if pass.Some? && !pass.value {
        ProcessKeepsConsistent(items[1..], f, check, st);
      } else if pass.Some? && Extract(items[0]).Some? {
        var st' := WallState(st.posts + [items[0]], st.links + Extract(items[0]).value);
        AllLinksAppend(st.posts, items[0]);
        assert Consistent(f, st');
        if !Capped(f, st') {
          ProcessKeepsConsistent(items[1..], f, check, st');
        }
      }
    }
  }

  /** Every post a run keeps passes the date filters, and the photo links are exactly those of the kept posts. */
  lemma {:induction false} RunConsistent(api: Api, offset: int, f: Filters, st: WallState)
    requires Consistent(f, st)
    ensures var w := WallRun(api, offset, f, st); w.result.Some? ==> Consistent(f, w.result.value)
    decreases Remaining(api, offset)
  {
    var items := Page(api, offset);
    if items != [] {
      var lastTs := DateOf(items[|items| - 1]);
      if f.since.Some? && lastTs.None? {
      } else if f.since.Some? && lastTs.value < f.since.value {
        var kept := FilterPosts(items, f);
        if kept.Some? {
          ProcessKeepsConsistent(kept.value, f, false, st);
        }
      } else {
        ProcessKeepsConsistent(items, f, true, st);
        var r := ProcessPosts(items, f, true, st);
        if r.Some? && !(Capped(f, r.value) || |items| < PageSize) {
          RemainingDecreases(api, offset, offset + PageSize);
          RunConsistent(api, offset + PageSize, f, r.value);
        }
      }
    }
  }

  lemma {:induction false} ProcessCap(items: seq<Json>, f: Filters, check: bool, st: WallState, m: int)
    requires f.max == Some(m) && |st.posts| < m
    ensures var r := ProcessPosts(items, f, check, st); r.Some? ==> |st.posts| <= |r.value.posts| <= m
    decreases |items|
  {
    if items != [] {
      var pass := if check then Passes(items[0], f) else Some(true);
      if pass.Some? && !pass.value {
        ProcessCap(items[1..], f, check, st, m);
      } else if pass.Some? && Extract(items[0]).Some? {
        var st' := WallState(st.posts + [items[0]], st.links + Extract(items[0]).value);
        if !Capped(f, st') {
          ProcessCap(items[1..], f, check, st', m);
        }
      }
    }
  }

  /** With `max_items` set to at least 1, a run never keeps more posts than that. */
  lemma {:induction false} RunCap(api: Api, offset: int, f: Filters, st: WallState, m: int)
    requires f.max == Some(m) && |st.posts| < m
    ensures var w := WallRun(api, offset, f, st); w.result.Some? ==> |w.result.value.posts| <= m
    decreases Remaining(api, offset)
  {
    var items := Page(api, offset);
    if items != [] {
      var lastTs := DateOf(items[|items| - 1]);
      if f.since.Some? && lastTs.None? {
      } else if f.since.Some? && lastTs.value < f.since.value {
        var kept := FilterPosts(items, f);
        if kept.Some? {
          ProcessCap(kept.value, f, false, st, m);
        }
      } else {
        ProcessCap(items, f, true, st, m);
        var r := ProcessPosts(items, f, true, st);
        if r.Some? && !(Capped(f, r.value) || |items| < PageSize) {
          RemainingDecreases(api, offset, offset + PageSize);
          RunCap(api, offset + PageSize, f, r.value, m);
        }
      }
    }
  }

  /**
   * The offsets a run persists: one page past the resume offset first, then
   * one page further each time, each after a full page.
   */
  lemma {:induction false} RunPersisted(api: Api, offset: int, f: Filters, st: WallState)
    ensures var p := WallRun(api, offset, f, st).persisted;
      && (|p| > 0 ==> p[0] == offset + PageSize)
      && (forall k :: 0 <= k < |p| - 1 ==> p[k + 1] == p[k] + PageSize)
      && (forall k :: 0 <= k < |p| ==> |Page(api, p[k] - PageSize)| >= PageSize)
    decreases Remaining(api, offset)
  {
    AdvanceStep(api, offset, f, st);
    var a := Advance(api, offset, f, st);
    if a.Some? {
      RemainingDecreases(api, offset, offset + PageSize);
      RunPersisted(api, offset + PageSize, f, a.value);
      var rest := WallRun(api, offset + PageSize, f, a.value).persisted;
      var p := [offset + PageSize] + rest;
      assert forall k :: 1 <= k < |p| ==> p[k] == rest[k - 1];
    }
  }

  /** The summary counts the kept posts and their links, with no failures. */
  lemma SummaryCounts(st: WallState, f: Filters)
    requires Consistent(f, st)
    ensures Summary(st) == Obj([("type", Str("wall")), ("items", Int(|st.posts|)),
                                ("photo_links", Int(|AllLinks(st.posts)|)), ("failures", Int(0))])
  {
  }
}
