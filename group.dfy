/**
 * The group wall downloaders: `GroupPhotoDownloader` (one group, given by
 * id) and `GroupsPhotoDownloader` (a comma-separated list of ids). Both
 * page the wall by 100 and append, for every post that is not an ad, the
 * photo attachments of the post or, for a repost, of the first copied
 * post; with videos requested they then page the video list by 100 and
 * append every video that has a "player". The two differ only in the sign
 * of the owner id they record, so one class models both, with that sign
 * as a constant.
 *
 * The wall and the video list of the group are abstract page functions
 * (the `owner_id=-group_id` argument selects them).
 */
module Group {
  import opened Wrappers
  import opened Text
  import opened JsonValues
  import opened Paging

  const PageSize: nat := 100

  // ---------------------------------------------------------------------
  // Group ids
  // ---------------------------------------------------------------------

  /** `int(p.strip())`. */
  function IdOf(p: string): Option<int> {
    ParseInt(Strip(p))
  }

  /** `GroupsPhotoDownloader.__init__`: the comma-separated ids, each stripped and converted with `int`. */
  function ParseGroupIds(ids: string): (r: Option<seq<int>>)
    ensures r.Some? ==> |r.value| == |Split(ids, ',')| >= 1
  {
    MapAll(Split(ids, ','), IdOf)
  }

  /** `str(i)` of each id. */
  function Rendered(ids: seq<int>): (r: seq<string>)
    ensures |r| == |ids| && forall k :: 0 <= k < |ids| ==> r[k] == IntToString(ids[k])
  {
    if ids == [] then [] else [IntToString(ids[0])] + Rendered(ids[1..])
  }

  /** One rendered id holds no comma and reads back, stripped, as itself. */
  lemma RenderedPiece(id: int)
    ensures ',' !in IntToString(id) && ParseInt(Strip(IntToString(id))) == Some(id)
  {
    var s := IntToString(id);
    assert ',' !in s by {
      IntToStringChars(id);
    }
    assert Strip(s) == s by {
      IntToStringChars(id);
      assert Trimmed(s);
      StripTrimmed(s);
    }
    ParseIntRoundTrip(id);
  }

  /** Rendered ids that each parse back as themselves parse back as a list. */
  lemma {:induction false} ParseRendered(ids: seq<int>, parse: string -> Option<int>)
    requires forall k :: 0 <= k < |ids| ==> parse(IntToString(ids[k])) == Some(ids[k])
    ensures MapAll(Rendered(ids), parse) == Some(ids)
    decreases |ids|
  {
    if ids != [] {
      var pieces := Rendered(ids);
      assert pieces[1..] == Rendered(ids[1..]);
      assert forall k :: 0 <= k < |ids[1..]| ==> ids[1..][k] == ids[k + 1];
      ParseRendered(ids[1..], parse);
      assert ids == [ids[0]] + ids[1..];
    }
  }

  /** No rendered id holds a comma. */
  lemma RenderedNoComma(ids: seq<int>)
    ensures forall k :: 0 <= k < |Rendered(ids)| ==> ',' !in Rendered(ids)[k]
  {
    forall k | 0 <= k < |ids|
      ensures ',' !in Rendered(ids)[k]
    {
      RenderedPiece(ids[k]);
    }
  }

  /** Any non-empty list of ids written out with commas parses back to the same list. */
  lemma ParseGroupIdsRoundTrip(ids: seq<int>)
    requires |ids| >= 1
    ensures ParseGroupIds(Join(Rendered(ids), ',')) == Some(ids)
  {
    RenderedNoComma(ids);
    SplitJoin(Rendered(ids), ',');
    forall k | 0 <= k < |ids|
      ensures IdOf(IntToString(ids[k])) == Some(ids[k])
    {
      RenderedPiece(ids[k]);
    }
    ParseRendered(ids, IdOf);
  }

  // ---------------------------------------------------------------------
  // `get_single_post`
  // ---------------------------------------------------------------------

  /** What `get_single_post` does with one attachment: nothing, append a record, or raise (ending the loop). */
  datatype AttStep = Skip | Append(record: Json) | Stop

  /** The record appended for a photo attachment, whose fields read back as given. */
  function PhotoRecord(id: Json, owner: Json, url: Json): (r: Json)
    ensures r.Obj? && Field(r, "type") == Str("photo") && Field(r, "id") == id
    ensures Field(r, "owner_id") == owner && Field(r, "url") == url
  {
    var r := Obj([("type", Str("photo")), ("id", id), ("owner_id", owner), ("url", url)]);
    LookupAt(r.fields, 0);
    LookupAt(r.fields, 1);
    LookupAt(r.fields, 2);
    LookupAt(r.fields, 3);
    r
  }

  /** A record that stands for a photo with a usable URL. */
  predicate IsPhotoRecord(x: Json) {
    x.Obj? && Field(x, "type") == Str("photo") && Field(x, "url") != Null && Field(x, "url") != Str("")
  }

  /** `-owner_id` in `GroupPhotoDownloader`, `owner_id` as it is in `GroupsPhotoDownloader`. */
  function OwnerOf(owner: Json, negate: bool): (r: Option<Json>)
    ensures !negate ==> r == Some(owner)
  {
    if negate then Neg(owner) else Some(owner)
  }

  /** `photo["sizes"][-1].get("url")`; `None` when reading it raises. */
  function SizeUrl(photo: Json): Option<Json> {
    match Item(photo, "sizes")
    case None => None
    case Some(sizes) =>
      match Last(sizes)
      case None => None
      case Some(best) => Get(best, "url", Null)
  }

  /** The photo's "id", "owner_id" and last-size URL can all be read. */
  predicate PhotoReadable(photo: Json) {
    Item(photo, "id").Some? && Item(photo, "owner_id").Some? && SizeUrl(photo).Some?
  }

  /** A readable photo whose last size has a URL other than None and "", with an owner the sign can apply to. */
  predicate UsablePhoto(photo: Json, negate: bool) {
    && PhotoReadable(photo) && SizeUrl(photo).value != Null && SizeUrl(photo).value != Str("")
    && OwnerOf(Field(photo, "owner_id"), negate).Some?
  }

  /**
   * The photo of a photo attachment: its record when the last size has a
   * URL other than None and ""; nothing when it has not; `None` (raise)
   * when a key is missing or a value has the wrong type.
   */
  function PhotoStep(photo: Json, negate: bool): (r: AttStep)
    ensures r.Append? <==> UsablePhoto(photo, negate)
    ensures r == Skip <==> PhotoReadable(photo) && (SizeUrl(photo).value == Null || SizeUrl(photo).value == Str(""))
    ensures r.Append? ==>
      && IsPhotoRecord(r.record) && Field(r.record, "id") == Field(photo, "id")
      && OwnerOf(Field(photo, "owner_id"), negate) == Some(Field(r.record, "owner_id"))
      && Field(r.record, "url") == SizeUrl(photo).value
  {
    match Item(photo, "id")
    case None => Stop
    case Some(id) =>
      match Item(photo, "owner_id")
      case None => Stop
      case Some(owner) =>
        match Item(photo, "sizes")
        case None => Stop
        case Some(sizes) =>
          match Last(sizes)
          case None => Stop
          case Some(best) =>
            match Get(best, "url", Null)
            case None => Stop
            case Some(url) =>
              if url == Null || url == Str("") then Skip
              else
                match OwnerOf(owner, negate)
                case None => Stop
                case Some(o) => Append(PhotoRecord(id, o, url))
  }

  /** One attachment: its photo's step when its type is "photo", nothing for another type, and a raise without a type. */
  function AttachmentStep(att: Json, negate: bool): (r: AttStep)
    ensures !att.Obj? || Item(att, "type").None? ==> r == Stop
    ensures att.Obj? && Item(att, "type").Some? && Field(att, "type") != Str("photo") ==> r == Skip
    ensures r.Append? ==> att.Obj? && Field(att, "type") == Str("photo") && r == PhotoStep(Field(att, "photo"), negate)
  {
    match Item(att, "type")
    case None => Stop
    case Some(t) =>
      if t != Str("photo") then Skip
      else
        match Item(att, "photo")
        case None => Stop
        case Some(photo) => PhotoStep(photo, negate)
  }

  /**
   * A loop that appends what `step` decides for each item in turn and ends,
   * keeping what it appended, at the first item `step` raises on.
   */
  function Collect(items: seq<Json>, step: Json -> AttStep): (r: seq<Json>)
    ensures |r| <= |items|
  {
    if items == [] then []
    else
      var rest := Collect(items[1..], step);
      match step(items[0])
      case Stop => []
      case Skip => rest
      case Append(record) => [record] + rest
  }

  /** Every record collected is the decision on some item. */
  lemma {:induction false} CollectOrigin(items: seq<Json>, step: Json -> AttStep, x: Json)
    requires x in Collect(items, step)
    ensures exists k :: 0 <= k < |items| && step(items[k]) == Append(x)
    decreases |items|
  {
    if step(items[0]) != Append(x) {
      CollectOrigin(items[1..], step, x);
      var k :| 0 <= k < |items[1..]| && step(items[1..][k]) == Append(x);
      assert items[k + 1] == items[1..][k];
    }
  }

  /** The loop raises somewhere in these items. */
  predicate Halts(items: seq<Json>, step: Json -> AttStep)
    decreases |items|
  {
    items != [] && (step(items[0]).Stop? || Halts(items[1..], step))
  }

  /** The loop raises exactly when the step raises on some item. */
  lemma {:induction false} HaltsAt(items: seq<Json>, step: Json -> AttStep)
    ensures Halts(items, step) <==> exists k :: 0 <= k < |items| && step(items[k]).Stop?
    decreases |items|
  {
    if items != [] && !step(items[0]).Stop? {
      HaltsAt(items[1..], step);
      if Halts(items[1..], step) {
        var k :| 0 <= k < |items[1..]| && step(items[1..][k]).Stop?;
        assert items[k + 1] == items[1..][k];
      }
      if exists k :: 0 <= k < |items| && step(items[k]).Stop? {
        var k :| 0 <= k < |items| && step(items[k]).Stop?;
        assert items[1..][k - 1] == items[k];
      }
    }
  }

  /** `Collect` from item `i` on, one step unfolded. */
  lemma CollectFrom(items: seq<Json>, i: nat, step: Json -> AttStep)
    requires i < |items|
    ensures Collect(items[i..], step) ==
      match step(items[i])
      case Stop => []
      case Skip => Collect(items[i + 1..], step)
      case Append(record) => [record] + Collect(items[i + 1..], step)
  {
    assert items[i..][1..] == items[i + 1..];
  }

  /**
   * The loop swallows the exception that ends it: what it collects from two
   * runs of items is what it collects from the first, then, unless the
   * first raised, from the second.
   */
  lemma {:induction false} CollectAppend(a: seq<Json>, b: seq<Json>, step: Json -> AttStep)
    ensures Collect(a + b, step) == Collect(a, step) + (if Halts(a, step) then [] else Collect(b, step))
    decreases |a|
  {
    if a == [] {
      assert a + b == b;
    } else {
      var ab := a + b;
      assert ab[0] == a[0] && ab[1..] == a[1..] + b;
      if !step(a[0]).Stop? {
        CollectAppend(a[1..], b, step);
        var rest := if Halts(a[1..], step) then [] else Collect(b, step);
        if step(a[0]).Append? {
          var r := step(a[0]).record;
          assert [r] + (Collect(a[1..], step) + rest) == ([r] + Collect(a[1..], step)) + rest;
        }
      }
    }
  }

  /** The attachment step of the downloader with the given sign. */
  function AttStepOf(negate: bool): Json -> AttStep {
    att => AttachmentStep(att, negate)
  }

  /**
   * The records the attachment loop of `get_single_post` appends, in order:
   * each one a photo with a usable URL, at most one per attachment.
   */
  function Records(atts: seq<Json>, negate: bool): (r: seq<Json>)
    ensures |r| <= |atts|
    ensures forall x :: x in r ==> IsPhotoRecord(x)
  {
    CollectPhotos(atts, negate);
    Collect(atts, AttStepOf(negate))
  }

  /** A photo attachment whose photo is usable. */
  predicate UsableAttachment(att: Json, negate: bool) {
    att.Obj? && Item(att, "type") == Some(Str("photo")) && Item(att, "photo").Some?
    && UsablePhoto(Field(att, "photo"), negate)
  }

  /** The record a usable photo attachment gets: its id, its owner id (negated or not) and its last size's URL. */
  function UsableRecord(att: Json, negate: bool): Json
    requires UsableAttachment(att, negate)
  {
    var photo := Field(att, "photo");
    PhotoRecord(Field(photo, "id"), OwnerOf(Field(photo, "owner_id"), negate).value, SizeUrl(photo).value)
  }

  /**
   * Completeness of the attachment loop: when no attachment before `k`
   * raises and attachment `k` is a usable photo, its record is appended
   * right after the records of the attachments before it, and the records
   * of the attachments after it follow.
   */
  lemma RecordsComplete(atts: seq<Json>, negate: bool, k: nat)
    requires k < |atts| && UsableAttachment(atts[k], negate)
    requires forall j :: 0 <= j < k ==> !AttachmentStep(atts[j], negate).Stop?
    ensures Records(atts, negate) == Records(atts[..k], negate) + [UsableRecord(atts[k], negate)] + Records(atts[k + 1..], negate)
  {
    UsableStep(atts[k], negate);
    forall j | 0 <= j < k
      ensures !AttStepOf(negate)(atts[j]).Stop?
    {
    }
    CollectComplete(atts, AttStepOf(negate), k, UsableRecord(atts[k], negate));
  }

  /** A loop with no raise before item `k`, which appends `rec`, has `rec` between the records before and after it. */
  lemma {:induction false} CollectComplete(items: seq<Json>, step: Json -> AttStep, k: nat, rec: Json)
    requires k < |items| && step(items[k]) == Append(rec)
    requires forall j :: 0 <= j < k ==> !step(items[j]).Stop?
    ensures Collect(items, step) == Collect(items[..k], step) + [rec] + Collect(items[k + 1..], step)
    decreases k
  {
    if k == 0 {
      assert items[..0] == [];
    } else {
      var tail := items[1..];
      CollectComplete(tail, step, k - 1, rec);
      assert tail[..k - 1] == items[..k][1..] && tail[k..] == items[k + 1..];
      assert items[..k][0] == items[0];
      if step(items[0]).Append? {
        var r := step(items[0]).record;
        var before, after := Collect(tail[..k - 1], step), Collect(items[k + 1..], step);
        assert [r] + (before + [rec] + after) == ([r] + before) + [rec] + after;
      }
    }
  }

  /** A usable photo attachment appends its record. */
  lemma UsableStep(att: Json, negate: bool)
    requires UsableAttachment(att, negate)
    ensures AttStepOf(negate)(att) == Append(UsableRecord(att, negate))
  {
  }

  /** Every record the attachment step decides on is a photo with a usable URL. */
  lemma CollectPhotos(atts: seq<Json>, negate: bool)
    ensures forall x :: x in Collect(atts, AttStepOf(negate)) ==> IsPhotoRecord(x)
  {
    forall x | x in Collect(atts, AttStepOf(negate))
      ensures IsPhotoRecord(x)
    {
      CollectOrigin(atts, AttStepOf(negate), x);
      var k :| 0 <= k < |atts| && AttStepOf(negate)(atts[k]) == Append(x);
      assert AttachmentStep(atts[k], negate) == Append(x);
    }
  }

  /** `-owner_id` of a record, keeping the rest: what the single-group downloader records instead. */
  function Negated(record: Json): Json {
    if record.Obj? && |record.fields| == 4 && Neg(record.fields[2].1).Some? then
      Obj([record.fields[0], record.fields[1], ("owner_id", Neg(record.fields[2].1).value), record.fields[3]])
    else record
  }

  /** `b` decides as `a` does with the owner negated, except that it may raise where `a` appends. */
  predicate StepNegates(a: AttStep, b: AttStep) {
    match a
    case Stop => b == Stop
    case Skip => b == Skip
    case Append(r) => b == Stop || b == Append(Negated(r))
  }

  /** One attachment under both signs: the same decision, except that negating can raise on an owner that is not a number. */
  lemma StepSign(att: Json)
    ensures match AttachmentStep(att, false)
      case Stop => AttachmentStep(att, true) == Stop
      case Skip => AttachmentStep(att, true) == Skip
      case Append(r) => AttachmentStep(att, true) == Stop || AttachmentStep(att, true) == Append(Negated(r))
  {
  }

  /** The first `n` records with the owner negated. */
  function NegateAll(records: seq<Json>): (r: seq<Json>)
    ensures |r| == |records| && forall k :: 0 <= k < |records| ==> r[k] == Negated(records[k])
  {
    if records == [] then [] else [Negated(records[0])] + NegateAll(records[1..])
  }

  /** Two loops whose steps agree up to negation collect the same records up to negation, until the second one raises. */
  lemma {:induction false} CollectNegated(items: seq<Json>, keepStep: Json -> AttStep, negStep: Json -> AttStep)
    requires forall x :: StepNegates(keepStep(x), negStep(x))
    ensures var keep, neg := Collect(items, keepStep), Collect(items, negStep);
      |neg| <= |keep| && neg == NegateAll(keep[..|neg|])
    decreases |items|
  {
    if items != [] {
      CollectNegated(items[1..], keepStep, negStep);
      var keep, neg := Collect(items, keepStep), Collect(items, negStep);
      var keep', neg' := Collect(items[1..], keepStep), Collect(items[1..], negStep);
      assert StepNegates(keepStep(items[0]), negStep(items[0]));
      match keepStep(items[0])
      case Stop =>
      case Skip =>
      case Append(r) =>
        if negStep(items[0]).Append? {
          assert keep == [r] + keep' && neg == [Negated(r)] + neg';
          assert keep[..|neg|] == [r] + keep'[..|neg'|];
        }
    }
  }

  /**
   * `GroupPhotoDownloader` (line 192) records exactly what
   * `GroupsPhotoDownloader` (line 414) records with the owner negated, up
   * to the first owner that cannot be negated.
   */
  lemma OwnerSign(atts: seq<Json>)
    ensures var keep, neg := Records(atts, false), Records(atts, true);
      |neg| <= |keep| && neg == NegateAll(keep[..|neg|])
  {
    forall x
      ensures StepNegates(AttStepOf(false)(x), AttStepOf(true)(x))
    {
      StepSign(x);
    }
    CollectNegated(atts, AttStepOf(false), AttStepOf(true));
  }

  /**
   * `get_single_post(post)`: the records of `post["attachments"]` when it is
   * a list; anything else raises before the first append (iterating a
   * string or a dict yields strings, which cannot be indexed by "type").
   */
  function SinglePost(post: Json, negate: bool): (r: seq<Json>)
    ensures forall x :: x in r ==> IsPhotoRecord(x)
    ensures Item(post, "attachments").Some? && Field(post, "attachments").Arr? ==>
      r == Records(Field(post, "attachments").items, negate)
    ensures r != [] ==> Item(post, "attachments").Some? && Field(post, "attachments").Arr?
  {
    match Item(post, "attachments")
    case Some(Arr(atts)) => Records(atts, negate)
    case _ => []
  }

  // ---------------------------------------------------------------------
  // The loops of `get_photos`
  // ---------------------------------------------------------------------

  /**
   * A repost, `post["copy_history"]`: the records of its first entry when
   * "attachments" is in it, nothing otherwise; `None` when there is no
   * first entry or `in` cannot search it.
   */
  function CopyRecords(history: Json, negate: bool): (r: Option<seq<Json>>)
    ensures r.None? <==> First(history).None? || In("attachments", First(history).value).None?
    ensures r.Some? && r.value != [] ==> r.value == SinglePost(First(history).value, negate)
    ensures r.Some? ==> forall x :: x in r.value ==> IsPhotoRecord(x)
  {
    match First(history)
    case None => None
    case Some(first) =>
      match In("attachments", first)
      case None => None
      case Some(has) => Some(if has then SinglePost(first, negate) else [])
  }

  /**
   * One post of the wall loop: the records it appends, or `None` when the
   * loop raises on it (a post without "marked_as_ads", or a repost whose
   * `copy_history` raises). Ads append nothing; a repost uses only its
   * first copied post; any other post its own attachments.
   */
  function PostRecords(post: Json, negate: bool): (r: Option<seq<Json>>)
    ensures Item(post, "marked_as_ads").None? ==> r.None?
    ensures Item(post, "marked_as_ads").Some? && Truthy(Field(post, "marked_as_ads")) ==> r == Some([])
    ensures Item(post, "marked_as_ads").Some? && !Truthy(Field(post, "marked_as_ads")) && Item(post, "copy_history").Some? ==>
      r == CopyRecords(Field(post, "copy_history"), negate)
    ensures Item(post, "marked_as_ads").Some? && !Truthy(Field(post, "marked_as_ads")) && Item(post, "copy_history").None? ==>
      r == Some(if Item(post, "attachments").Some? then SinglePost(post, negate) else [])
    ensures r.Some? ==> forall x :: x in r.value ==> IsPhotoRecord(x)
  {
    match Item(post, "marked_as_ads")
    case None => None
    case Some(ads) =>
      if Truthy(ads) then Some([])
      else
        match Item(post, "copy_history")
        case Some(history) => CopyRecords(history, negate)
        case None => Some(if Item(post, "attachments").Some? then SinglePost(post, negate) else [])
  }

  /** A repost's own attachments are ignored: posts that agree on the ad flag and the copy history record the same. */
  lemma RepostIgnoresOwnAttachments(p1: Json, p2: Json, negate: bool)
    requires Item(p1, "marked_as_ads") == Item(p2, "marked_as_ads")
    requires Item(p1, "copy_history") == Item(p2, "copy_history") && Item(p1, "copy_history").Some?
    ensures PostRecords(p1, negate) == PostRecords(p2, negate)
  {
  }

  /**
   * One video of the video loop: its record when `"player" in video`,
   * nothing otherwise, and `None` when the test raises or the video is not
   * a dict but the test holds (`video.get` then raises).
   */
  function VideoStep(v: Json): (r: Option<seq<Json>>)
    ensures r == Some([]) <==> In("player", v) == Some(false)
    ensures v.Obj? ==> r == Some(if Lookup(v.fields, "player").Some? then [VideoRecord(v)] else [])
    ensures r.Some? && r.value != [] ==> v.Obj? && Lookup(v.fields, "player").Some?
  {
    match In("player", v)
    case None => None
    case Some(has) =>
      if !has then Some([])
      else if v.Obj? then Some([VideoRecord(v)])
      else None
  }

  /** The record appended for a video: its type, id, owner id, title and player, each `None` when absent. */
  function VideoRecord(v: Json): Json
    requires v.Obj?
  {
    Obj([("type", Field(v, "type")), ("id", Field(v, "id")), ("owner_id", Field(v, "owner_id")),
         ("title", Field(v, "title")), ("player", Field(v, "player"))])
  }

  /** What a loop over items leaves: the records appended, and whether it raised. */
  datatype Scanned = Scanned(records: seq<Json>, raised: bool)

  /**
   * A loop that appends what `step` gives for each item in turn and raises
   * at the first item `step` raises on.
   */
  function Scan(items: seq<Json>, step: Json -> Option<seq<Json>>): Scanned
  {
    if items == [] then Scanned([], false)
    else
      match step(items[0])
      case None => Scanned([], true)
      case Some(rs) =>
        var rest := Scan(items[1..], step);
        Scanned(rs + rest.records, rest.raised)
  }

  /** The loop raises exactly when some item does. */
  lemma {:induction false} ScanRaises(items: seq<Json>, step: Json -> Option<seq<Json>>)
    ensures Scan(items, step).raised <==> exists k :: 0 <= k < |items| && step(items[k]).None?
    decreases |items|
  {
    if items != [] && step(items[0]).Some? {
      ScanRaises(items[1..], step);
      assert forall k :: 0 <= k < |items[1..]| ==> items[1..][k] == items[k + 1];
    }
  }

  /** Every record comes from an item the step does not raise on. */
  lemma {:induction false} ScanOrigin(items: seq<Json>, step: Json -> Option<seq<Json>>, y: Json)
    requires y in Scan(items, step).records
    ensures exists x :: x in items && step(x).Some? && y in step(x).value
    decreases |items|
  {
    if y !in step(items[0]).value {
      ScanOrigin(items[1..], step, y);
    }
  }

  /** `Scan` from item `i` on, one step unfolded. */
  lemma ScanFrom(items: seq<Json>, i: nat, step: Json -> Option<seq<Json>>)
    requires i < |items|
    ensures Scan(items[i..], step) ==
      match step(items[i])
      case None => Scanned([], true)
      case Some(rs) => Then(rs, Scan(items[i + 1..], step))
  {
    assert items[i..][1..] == items[i + 1..];
  }

  /** `done` appended before what the rest of the loop leaves. */
  function Then(done: seq<Json>, rest: Scanned): Scanned {
    Scanned(done + rest.records, rest.raised)
  }

  /** Sequence concatenation is associative. */
  lemma Assoc(a: seq<Json>, b: seq<Json>, c: seq<Json>)
    ensures a + (b + c) == (a + b) + c
  {
  }

  /** Appending in two goes is appending once. */
  lemma ThenThen(a: seq<Json>, b: seq<Json>, rest: Scanned)
    ensures Then(a, Then(b, rest)) == Then(a + b, rest)
  {
    assert a + (b + rest.records) == (a + b) + rest.records;
  }

  /** A loop over `a + b` runs over `a`, then, unless it raised there, over `b`. */
  lemma {:induction false} ScanAppend(a: seq<Json>, b: seq<Json>, step: Json -> Option<seq<Json>>)
    ensures Scan(a + b, step) == if Scan(a, step).raised then Scan(a, step) else Then(Scan(a, step).records, Scan(b, step))
    decreases |a|
  {
    if a == [] {
      assert a + b == b;
    } else {
      assert (a + b)[1..] == a[1..] + b;
      ScanAppend(a[1..], b, step);
    }
  }

  /**
   * A loop over a paged collection is the loop over its first page, then,
   * when that page was full and the loop did not raise on it, the loop over
   * the pages after it.
   */
  lemma ScanPages(api: Api, offset: int, step: Json -> Option<seq<Json>>)
    ensures var page := Page(api, offset);
      Scan(Collected(api, offset, PageSize), step) ==
        if |page| < PageSize || Scan(page, step).raised then Scan(page, step)
        else Then(Scan(page, step).records, Scan(Collected(api, offset + PageSize, PageSize), step))
  {
    var page := Page(api, offset);
    if |page| >= PageSize {
      ScanAppend(page, Collected(api, offset + PageSize, PageSize), step);
    }
  }

  /** The post step of the downloader with the given sign. */
  function PostStep(negate: bool): Json -> Option<seq<Json>> {
    post => PostRecords(post, negate)
  }

  /** What `get_photos` leaves: the photo records, the video records, and whether it raised. */
  datatype Gathered = Gathered(photos: seq<Json>, videos: seq<Json>, raised: bool)

  /**
   * `get_photos`: the wall loop over every post up to the first short page;
   * then, when videos are requested and the wall loop did not raise, the
   * video loop over every video up to its first short page.
   */
  function Gather(wall: Api, videos: Api, withVideos: bool, negate: bool): Gathered {
    var p := Scan(Collected(wall, 0, PageSize), PostStep(negate));
    if p.raised || !withVideos then Gathered(p.records, [], p.raised)
    else
      var v := Scan(Collected(videos, 0, PageSize), VideoStep);
      Gathered(p.records, v.records, v.raised)
  }

  /**
   * Every photo `get_photos` records is a photo attachment with a usable
   * URL, taken from a post of the wall that is not an ad; every video it
   * records is a video of the list that has a "player"; no video is
   * recorded unless videos were requested.
   */
  lemma GatherProvenance(wall: Api, videos: Api, withVideos: bool, negate: bool)
    ensures var g := Gather(wall, videos, withVideos, negate);
      && (forall y :: y in g.photos ==>
            IsPhotoRecord(y) &&
            exists post :: post in Collected(wall, 0, PageSize) && Item(post, "marked_as_ads").Some? && !Truthy(Field(post, "marked_as_ads")))
      && (forall y :: y in g.videos ==>
            exists v :: v in Collected(videos, 0, PageSize) && v.Obj? && Lookup(v.fields, "player").Some? && y == VideoRecord(v))
      && (!withVideos ==> g.videos == [])
  {
    var g := Gather(wall, videos, withVideos, negate);
    forall y | y in g.photos
      ensures IsPhotoRecord(y) &&
        exists post :: post in Collected(wall, 0, PageSize) && Item(post, "marked_as_ads").Some? && !Truthy(Field(post, "marked_as_ads"))
    {
      ScanOrigin(Collected(wall, 0, PageSize), PostStep(negate), y);
      var post :| post in Collected(wall, 0, PageSize) && PostStep(negate)(post).Some? && y in PostStep(negate)(post).value;
      assert PostRecords(post, negate).Some? && y in PostRecords(post, negate).value;
    }
    forall y | y in g.videos
      ensures exists v :: v in Collected(videos, 0, PageSize) && v.Obj? && Lookup(v.fields, "player").Some? && y == VideoRecord(v)
    {
      ScanOrigin(Collected(videos, 0, PageSize), VideoStep, y);
      var v :| v in Collected(videos, 0, PageSize) && VideoStep(v).Some? && y in VideoStep(v).value;
    }
  }

  // ---------------------------------------------------------------------
  // The downloaders
  // ---------------------------------------------------------------------

  /**
   * `GroupPhotoDownloader` (`negate`, one id) and `GroupsPhotoDownloader`
   * (several ids): the lists `get_photos` appends to.
   */
  class GroupDownloader {
    const groupIds: seq<int>
    const negate: bool
    var photos: seq<Json>
    var videosList: seq<Json>

    /** The downloader with the lists as `main` sets them up. */
    constructor (groupIds: seq<int>, negate: bool)
      ensures this.groupIds == groupIds && this.negate == negate && photos == [] && videosList == []
    {
      this.groupIds := groupIds;
      this.negate := negate;
      photos := [];
      videosList := [];
    }

    /** `GroupPhotoDownloader(group_id)`: `None` when `int(group_id)` raises. */
    static method ForGroup(groupId: string) returns (r: Option<GroupDownloader>)
      ensures r.Some? <==> ParseInt(groupId).Some?
      ensures r.Some? ==> fresh(r.value) && r.value.groupIds == [ParseInt(groupId).value] && r.value.negate
      ensures r.Some? ==> r.value.photos == [] && r.value.videosList == []
    {
      var id := ParseInt(groupId);
      if id.None? {
        return None;
      }
      var d := new GroupDownloader([id.value], true);
      return Some(d);
    }

    /** `GroupsPhotoDownloader(group_ids)`: `None` when an id raises. */
    static method ForGroups(groupIds: string) returns (r: Option<GroupDownloader>)
      ensures r.Some? <==> ParseGroupIds(groupIds).Some?
      ensures r.Some? ==> fresh(r.value) && r.value.groupIds == ParseGroupIds(groupIds).value && !r.value.negate
      ensures r.Some? ==> r.value.photos == [] && r.value.videosList == []
    {
      var ids := ParseGroupIds(groupIds);
      if ids.None? {
        return None;
      }
      var d := new GroupDownloader(ids.value, false);
      return Some(d);
    }

    /** `get_single_post(post)`: appends the post's photo records; an exception ends the loop and is swallowed. */
    method GetSinglePost(post: Json)
      modifies this
      ensures photos == old(photos) + SinglePost(post, negate)
      ensures videosList == old(videosList)
    {
      var atts := Item(post, "attachments");
      if atts.None? || !atts.value.Arr? {
        return;
      }
      AppendRecords(atts.value.items, AttStepOf(negate));
    }

    /**
     * The attachment loop of `get_single_post`: appends what `step` decides
     * for each attachment of `items`, up to the first one it raises on.
     */
    method AppendRecords(items: seq<Json>, step: Json -> AttStep)
      modifies this
      ensures photos == old(photos) + Collect(items, step)
      ensures videosList == old(videosList)
    {
      ghost var added: seq<Json> := [];
      var i := 0;
      assert items[0..] == items;
      while i < |items|
        invariant 0 <= i <= |items| && videosList == old(videosList)
        invariant photos == old(photos) + added
        invariant Collect(items, step) == added + Collect(items[i..], step)
      {
        CollectFrom(items, i, step);
        var decision := step(items[i]);
        if decision.Stop? {
          assert added + [] == added;
          return;
        }
        if decision.Append? {
          assert added + ([decision.record] + Collect(items[i + 1..], step)) ==
            (added + [decision.record]) + Collect(items[i + 1..], step);
          photos := photos + [decision.record];
          added := added + [decision.record];
        }
        i := i + 1;
      }
      assert items[|items|..] == [];
      assert added + [] == added;
    }

    /** One post of the wall loop; `true` when it raises. */
    method HandlePost(post: Json) returns (raised: bool)
      modifies this
      ensures raised <==> PostRecords(post, negate).None?
      ensures photos == old(photos) + PostRecords(post, negate).GetOr([])
      ensures videosList == old(videosList)
    {
      var ads := Item(post, "marked_as_ads");
      if ads.None? {
        return true;
      }
      if Truthy(ads.value) {
        return false;
      }
      var history := Item(post, "copy_history");
      if history.Some? {
        var first := First(history.value);
        if first.None? {
          return true;
        }
        var has := In("attachments", first.value);
        if has.None? {
          return true;
        }
        if has.value {
          GetSinglePost(first.value);
        }
      } else if Item(post, "attachments").Some? {
        GetSinglePost(post);
      }
      return false;
    }

    /** The post loop over one page; `true` when it raised. */
    method HandlePosts(posts: seq<Json>) returns (raised: bool)
      modifies this
      ensures var s := Scan(posts, PostStep(negate));
        photos == old(photos) + s.records && raised == s.raised
      ensures videosList == old(videosList)
    {
      ghost var added: seq<Json> := [];
      assert posts[0..] == posts;
      for i := 0 to |posts|
        invariant videosList == old(videosList)
        invariant photos == old(photos) + added
        invariant Scan(posts, PostStep(negate)) == Then(added, Scan(posts[i..], PostStep(negate)))
      {
        ScanFrom(posts, i, PostStep(negate));
        ghost var before := photos;
        raised := HandlePost(posts[i]);
        if raised {
          return;
        }
        ghost var rs := PostRecords(posts[i], negate).value;
        assert photos == before + rs;
        Assoc(old(photos), added, rs);
        ThenThen(added, PostRecords(posts[i], negate).value, Scan(posts[i + 1..], PostStep(negate)));
        added := added + PostRecords(posts[i], negate).value;
      }
      assert posts[|posts|..] == [];
      assert added + [] == added;
      raised := false;
    }

    /** The video loop over one page; `true` when it raised. */
    method HandleVideos(videos: seq<Json>) returns (raised: bool)
      modifies this
      ensures var s := Scan(videos, VideoStep);
        videosList == old(videosList) + s.records && raised == s.raised
      ensures photos == old(photos)
    {
      ghost var added: seq<Json> := [];
      assert videos[0..] == videos;
      for i := 0 to |videos|
        invariant photos == old(photos)
        invariant videosList == old(videosList) + added
        invariant Scan(videos, VideoStep) == Then(added, Scan(videos[i..], VideoStep))
      {
        ScanFrom(videos, i, VideoStep);
        var v := videos[i];
        var has := In("player", v);
        if has.None? || (has.value && !v.Obj?) {
          return true;
        }
        var rs := if has.value then [VideoRecord(v)] else [];
        assert VideoStep(v) == Some(rs);
        ThenThen(added, rs, Scan(videos[i + 1..], VideoStep));
        videosList := videosList + rs;
        added := added + rs;
      }
      assert videos[|videos|..] == [];
      assert added + [] == added;
      raised := false;
    }

    /**
     * `get_photos`: the wall pages from offset 0, 100 at a time, until a
     * short page; then, when `download_videos == "1"`, the video pages the
     * same way. Returns `true` when it raised.
     */
    method GetPhotos(wall: Api, videos: Api, downloadVideos: string) returns (raised: bool)
      modifies this
      ensures var g := Gather(wall, videos, downloadVideos == "1", negate);
        && photos == old(photos) + g.photos
        && videosList == old(videosList) + g.videos
        && raised == g.raised
    {
      raised := WallLoop(wall);
      if raised || downloadVideos != "1" {
        return;
      }
      raised := VideoLoop(videos);
    }

    /** The paging loop over the wall. */
    method WallLoop(wall: Api) returns (raised: bool)
      modifies this
      ensures var s := Scan(Collected(wall, 0, PageSize), PostStep(negate));
        photos == old(photos) + s.records && raised == s.raised
      ensures videosList == old(videosList)
    {
      ghost var total := Scan(Collected(wall, 0, PageSize), PostStep(negate));
      var offset := 0;
      ghost var added: seq<Json> := [];
      var more := true;
      raised := false;
      while more
        invariant photos == old(photos) + added && videosList == old(videosList)
        invariant more ==> total == Then(added, Scan(Collected(wall, offset, PageSize), PostStep(negate)))
        invariant !more ==> total == Scanned(added, raised)
        decreases more, Remaining(wall, offset)
      {
        var posts := Page(wall, offset);
        raised := HandlePosts(posts);
        ghost var s := Scan(posts, PostStep(negate));
        ScanPages(wall, offset, PostStep(negate));
        Assoc(old(photos), added, s.records);
        if raised || |posts| < PageSize {
          more := false;
        } else {
          ThenThen(added, s.records, Scan(Collected(wall, offset + PageSize, PageSize), PostStep(negate)));
          RemainingDecreases(wall, offset, offset + PageSize);
          offset := offset + PageSize;
        }
        added := added + s.records;
      }
    }

    /** The paging loop over the video list. */
    method VideoLoop(videos: Api) returns (raised: bool)
      modifies this
      ensures var s := Scan(Collected(videos, 0, PageSize), VideoStep);
        videosList == old(videosList) + s.records && raised == s.raised
      ensures photos == old(photos)
    {
      ghost var total := Scan(Collected(videos, 0, PageSize), VideoStep);
      var offset := 0;
      ghost var added: seq<Json> := [];
      var more := true;
      raised := false;
      while more
        invariant videosList == old(videosList) + added && photos == old(photos)
        invariant more ==> total == Then(added, Scan(Collected(videos, offset, PageSize), VideoStep))
        invariant !more ==> total == Scanned(added, raised)
        decreases more, Remaining(videos, offset)
      {
        var page := Page(videos, offset);
        raised := HandleVideos(page);
        ghost var s := Scan(page, VideoStep);
        ScanPages(videos, offset, VideoStep);
        Assoc(old(videosList), added, s.records);
        if raised || |page| < PageSize {
          more := false;
        } else {
          ThenThen(added, s.records, Scan(Collected(videos, offset + PageSize, PageSize), VideoStep));
          RemainingDecreases(videos, offset, offset + PageSize);
          offset := offset + PageSize;
        }
        added := added + s.records;
      }
    }
  }
}
