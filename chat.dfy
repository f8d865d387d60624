/**
 * The chat downloaders: `ChatMembersPhotoDownloader` (the photos of every
 * other member of a chat), `ChatPhotoDownloader` (the photo attachments of
 * a chat) and `ChatUserPhotoDownloader` (the photo attachments of a
 * conversation with one user).
 *
 * The API responses each `main` reads are passed in as values and
 * functions; what `main` then hands to the user downloader or to
 * `download_photos` is its result.
 */
module Chat {
  import opened Wrappers
  import opened Text
  import opened JsonValues
  import opened Files
  import VkUtils
  import Cli
  import Functions

  // ---------------------------------------------------------------------
  // The member ids of `ChatMembersPhotoDownloader.main`
  // ---------------------------------------------------------------------

  /** Python `x > 0` for a member id: ints and bools compare, anything else raises TypeError. */
  function Positive(x: Json): (r: Option<bool>)
    ensures r.Some? <==> x.Int? || x.Bool?
    ensures r == Some(true) <==> (x.Int? && x.i > 0) || x == Bool(true)
  {
    match x
    case Int(i) => Some(i > 0)
    case Bool(b) => Some(b)
    case _ => None
  }

  /** The items of `xs` that `keep` holds for, in order; `None` when `keep` raises on one of them. */
  function Filter<T>(xs: seq<T>, keep: T -> Option<bool>): Option<seq<T>>
    decreases |xs|
  {
    if xs == [] then Some([])
    else
      match keep(xs[0])
      case None => None
      case Some(b) =>
        match Filter(xs[1..], keep)
        case None => None
        case Some(rest) => Some(if b then [xs[0]] + rest else rest)
  }

  /** Filtering a concatenation filters each part, in order. */
  lemma {:induction false} FilterAppend<T>(a: seq<T>, b: seq<T>, keep: T -> Option<bool>)
    ensures Filter(a + b, keep) == Cat(Filter(a, keep), Filter(b, keep))
    decreases |a|
  {
    if a == [] {
      assert a + b == b;
      match Filter(b, keep)
      case None =>
      case Some(fb) => assert [] + fb == fb;
    } else {
      var ab := a + b;
      assert ab[0] == a[0] && ab[1..] == a[1..] + b;
      FilterAppend(a[1..], b, keep);
      match keep(a[0])
      case None =>
      case Some(k) =>
        if Filter(a[1..], keep).Some? && Filter(b, keep).Some? {
          var fa, fb := Filter(a[1..], keep).value, Filter(b, keep).value;
          assert [a[0]] + (fa + fb) == ([a[0]] + fa) + fb;
        }
    }
  }

  /**
   * The filter raises exactly when `keep` raises on some item; otherwise it
   * keeps every item `keep` holds for and nothing else.
   */
  lemma {:induction false} FilterEach<T>(xs: seq<T>, keep: T -> Option<bool>)
    ensures Filter(xs, keep).Some? <==> forall k :: 0 <= k < |xs| ==> keep(xs[k]).Some?
    ensures Filter(xs, keep).Some? ==>
      && (forall x :: x in Filter(xs, keep).value ==> keep(x) == Some(true))
      && (forall k :: 0 <= k < |xs| && keep(xs[k]) == Some(true) ==> xs[k] in Filter(xs, keep).value)
    decreases |xs|
  {
    if xs != [] {
      FilterEach(xs[1..], keep);
      assert forall k :: 1 <= k < |xs| ==> xs[k] == xs[1..][k - 1];
    }
  }

  /** One item is kept, dropped, or raises. */
  lemma FilterOne<T>(x: T, keep: T -> Option<bool>)
    ensures Filter([x], keep) == (match keep(x) case None => None case Some(b) => Some(if b then [x] else []))
  {
    assert [x][1..] == [];
    assert [x] + [] == [x];
  }

  /** The loop of lines 66-70: each member in turn, kept when positive. */
  method KeepEach<T>(xs: seq<T>, keep: T -> Option<bool>) returns (r: Option<seq<T>>)
    ensures r == Filter(xs, keep)
  {
    var kept: seq<T> := [];
    for i := 0 to |xs|
      invariant Filter(xs[..i], keep) == Some(kept)
    {
      assert xs[..i + 1] == xs[..i] + [xs[i]];
      FilterAppend(xs[..i], [xs[i]], keep);
      FilterOne(xs[i], keep);
      var b := keep(xs[i]);
      if b.None? {
        assert xs == xs[..i + 1] + xs[i + 1..];
        FilterAppend(xs[..i + 1], xs[i + 1..], keep);
        return None;
      }
      if b.value {
        kept := kept + [xs[i]];
      } else {
        assert kept + [] == kept;
      }
    }
    assert xs[..|xs|] == xs;
    return Some(kept);
  }

  /** The members `main` keeps: the positive ids (users; communities are negative), in order. */
  function PositiveMembers(members: seq<Json>): Option<seq<Json>> {
    Filter(members, Positive)
  }

  /** Python `a == b` between ids: ints and bools compare as numbers (`1 == True`), other values structurally. */
  predicate PyEq(a: Json, b: Json) {
    if (a.Int? || a.Bool?) && (b.Int? || b.Bool?) then AsNumber(a) == AsNumber(b) else a == b
  }

  function AsNumber(v: Json): int
    requires v.Int? || v.Bool?
  {
    if v.Int? then v.i else if v.b then 1 else 0
  }

  /** The position of the first item equal to `x`, or `|xs|` when there is none. */
  function FirstMatch(xs: seq<Json>, x: Json): (k: nat)
    ensures k <= |xs|
    ensures forall j :: 0 <= j < k ==> !PyEq(xs[j], x)
    ensures k < |xs| ==> PyEq(xs[k], x)
  {
    if xs == [] then 0
    else if PyEq(xs[0], x) then 0
    else
      var k := FirstMatch(xs[1..], x);
      assert forall j :: 1 <= j < |xs| ==> xs[j] == xs[1..][j - 1];
      1 + k
  }

  /**
   * `xs.remove(x)`: the list without its first item equal to `x`;
   * ValueError (`None`) when no item is.
   */
  function RemoveFirst(xs: seq<Json>, x: Json): (r: Option<seq<Json>>)
    ensures r.Some? <==> FirstMatch(xs, x) < |xs|
    ensures r.Some? ==> r.value == xs[..FirstMatch(xs, x)] + xs[FirstMatch(xs, x) + 1..]
  {
    if xs == [] then None
    else if PyEq(xs[0], x) then Some(xs[1..])
    else
      match RemoveFirst(xs[1..], x)
      case None => None
      case Some(rest) =>
        SpliceFront(xs, FirstMatch(xs[1..], x));
        Some([xs[0]] + rest)
  }

  /** Taking out item `k + 1` of `xs` is taking out item `k` of its tail, with the head kept in front. */
  lemma SpliceFront<T>(xs: seq<T>, k: nat)
    requires k + 1 < |xs|
    ensures [xs[0]] + (xs[1..][..k] + xs[1..][k + 1..]) == xs[..k + 1] + xs[k + 2..]
  {
    assert xs[..k + 1] == [xs[0]] + xs[1..][..k];
    assert xs[k + 2..] == xs[1..][k + 1..];
  }

  /** `remove` takes out exactly one item, one equal to `x`, and keeps the others with their counts. */
  lemma RemoveFirstRemovesOne(xs: seq<Json>, x: Json)
    requires RemoveFirst(xs, x).Some?
    ensures var k := FirstMatch(xs, x);
      && |RemoveFirst(xs, x).value| + 1 == |xs| && PyEq(xs[k], x)
      && multiset(RemoveFirst(xs, x).value) + multiset{xs[k]} == multiset(xs)
  {
    Splice(xs, FirstMatch(xs, x));
  }

  /** Taking out the item at `k` leaves the others with their counts. */
  lemma Splice<T>(xs: seq<T>, k: nat)
    requires k < |xs|
    ensures multiset(xs[..k] + xs[k + 1..]) + multiset{xs[k]} == multiset(xs)
  {
    assert xs == xs[..k] + ([xs[k]] + xs[k + 1..]);
  }

  /**
   * Lines 66-72: the members as a `for` loop sees them, the positive ones
   * kept in order, then the current user's id removed; `None` when any of
   * it raises (a member that is not a number, no `id` in the profile, the
   * current user not among the kept members).
   */
  function MemberIds(members: Json, me: Option<Json>): (r: Option<seq<Json>>)
    ensures r.Some? ==> Iter(members).Some? && PositiveMembers(Iter(members).value).Some? && me.Some?
    ensures r.Some? ==> RemoveFirst(PositiveMembers(Iter(members).value).value, me.value) == r
  {
    match Iter(members)
    case None => None
    case Some(ms) =>
      match PositiveMembers(ms)
      case None => None
      case Some(kept) =>
        match me
        case None => None
        case Some(m) => RemoveFirst(kept, m)
  }

  /**
   * The ids handed to the user downloader are all positive; they are the
   * positive members, in order, less one occurrence of the current user,
   * and that removal fails exactly when the current user is not among them.
   */
  lemma MemberIdsOthers(members: seq<Json>, me: Json)
    requires PositiveMembers(members).Some?
    ensures var kept := PositiveMembers(members).value;
      && (MemberIds(Arr(members), Some(me)).Some? <==> exists k :: 0 <= k < |kept| && PyEq(kept[k], me))
      && (MemberIds(Arr(members), Some(me)).Some? ==>
            var ids := MemberIds(Arr(members), Some(me)).value;
            && (forall x :: x in ids ==> Positive(x) == Some(true))
            && |ids| + 1 == |kept|
            && multiset(ids) + multiset{kept[FirstMatch(kept, me)]} == multiset(kept))
  {
    var kept := PositiveMembers(members).value;
    assert MemberIds(Arr(members), Some(me)) == RemoveFirst(kept, me);
    assert forall x :: x in kept ==> Positive(x) == Some(true) by {
      FilterEach(members, Positive);
    }
    if RemoveFirst(kept, me).Some? {
      RemoveFirstRemovesOne(kept, me);
      var ids := RemoveFirst(kept, me).value;
      assert forall x :: x in ids ==> x in kept by {
        forall x | x in ids
          ensures x in kept
        {
          assert x in multiset(ids);
          assert x in multiset(kept);
        }
      }
    }
  }

  // ---------------------------------------------------------------------
  // `get_attachments`
  // ---------------------------------------------------------------------

  /** `item["attachment"]["photo"]`. */
  function AttachedPhoto(item: Json): Option<Json> {
    match Item(item, "attachment")
    case None => None
    case Some(attachment) => Item(attachment, "photo")
  }

  /** `photo["sizes"][-1]["url"]`, the URL of the largest size. */
  function LargestUrl(photo: Json): Option<Json> {
    match Item(photo, "sizes")
    case None => None
    case Some(sizes) =>
      match Last(sizes)
      case None => None
      case Some(size) => Item(size, "url")
  }

  /**
   * The record `get_attachments` appends for one history item, the dict
   * `{"id", "owner_id", "url"}` of the attached photo, the URL that of its
   * largest size; `None` when a key is missing.
   */
  function AttachmentRecord(item: Json): (r: Option<Json>)
    ensures r.Some? <==> (AttachedPhoto(item).Some? && Item(AttachedPhoto(item).value, "id").Some?
      && Item(AttachedPhoto(item).value, "owner_id").Some? && LargestUrl(AttachedPhoto(item).value).Some?)
    ensures r.Some? ==> (r.value.Obj?
      && Item(r.value, "id") == Item(AttachedPhoto(item).value, "id")
      && Item(r.value, "owner_id") == Item(AttachedPhoto(item).value, "owner_id")
      && Item(r.value, "url") == LargestUrl(AttachedPhoto(item).value))
  {
    match AttachedPhoto(item)
    case None => None
    case Some(photo) =>
      match Item(photo, "id")
      case None => None
      case Some(id) =>
        match Item(photo, "owner_id")
        case None => None
        case Some(owner) =>
          match LargestUrl(photo)
          case None => None
          case Some(url) =>
            var located := [("url", url)];
            var owned := [("owner_id", owner)] + located;
            LookupFront("url", url, [], "url");
            LookupFront("owner_id", owner, located, "url");
            LookupFront("owner_id", owner, located, "owner_id");
            LookupFront("id", id, owned, "url");
            LookupFront("id", id, owned, "owner_id");
            LookupFront("id", id, owned, "id");
            Some(Obj([("id", id)] + owned))
  }

  /** `get_attachments` on the `messages.getHistoryAttachments` response: one record per item of `["items"]`. */
  function Attachments(response: Json): Option<seq<Json>> {
    match Item(response, "items")
    case None => None
    case Some(items) =>
      match Iter(items)
      case None => None
      case Some(raw) => MapAll(raw, AttachmentRecord)
  }

  /**
   * `get_attachments` yields one record per item, in order, each the
   * record of that item's photo; it raises exactly when an item lacks one
   * of the keys.
   */
  lemma AttachmentsEach(items: seq<Json>)
    ensures var r := Attachments(Obj([("items", Arr(items))]));
      && (r.Some? <==> forall k :: 0 <= k < |items| ==> AttachmentRecord(items[k]).Some?)
      && (r.Some? ==> |r.value| == |items| && forall k :: 0 <= k < |items| ==> Some(r.value[k]) == AttachmentRecord(items[k]))
  {
    LookupFront("items", Arr(items), [], "items");
    MapAllEach(items, AttachmentRecord);
  }

  /** The job `download_photos` schedules for one attachment record: its URL into `"{owner_id}_{id}.jpg"`. */
  lemma AttachmentJob(dir: Path, item: Json)
    requires AttachmentRecord(item).Some?
    ensures var photo := AttachedPhoto(item).value;
      Functions.PhotoJobOf(dir, AttachmentRecord(item).value) == Some(Functions.PhotoJob(LargestUrl(photo).value,
        dir + [ToStr(Field(photo, "owner_id")) + "_" + ToStr(Field(photo, "id")) + ".jpg"]))
  {
    var photo := AttachedPhoto(item).value;
    JobOfRecord(dir, AttachmentRecord(item).value, Field(photo, "id"), Field(photo, "owner_id"), LargestUrl(photo).value);
  }

  /** The job for a record whose "id", "owner_id" and "url" read `id`, `owner` and `url`. */
  lemma JobOfRecord(dir: Path, record: Json, id: Json, owner: Json, url: Json)
    requires Item(record, "id") == Some(id) && Item(record, "owner_id") == Some(owner) && Item(record, "url") == Some(url)
    ensures Functions.PhotoJobOf(dir, record) == Some(Functions.PhotoJob(url, dir + [ToStr(owner) + "_" + ToStr(id) + ".jpg"]))
  {
    var stem := ToStr(owner) + "_" + ToStr(id);
    assert stem + "." + "jpg" == stem + ".jpg";
  }

  /**
   * `download_photos` never raises on the records `get_attachments`
   * builds: each gets exactly one job, in order.
   */
  lemma AttachmentJobs(dir: Path, response: Json)
    requires Attachments(response).Some?
    ensures Functions.PhotoJobs(dir, Attachments(response).value).Some?
    ensures |Functions.PhotoJobs(dir, Attachments(response).value).value| == |Attachments(response).value|
  {
    var records := Attachments(response).value;
    var raw := Iter(Field(response, "items")).value;
    MapAllEach(raw, AttachmentRecord);
    forall k | 0 <= k < |records|
      ensures Functions.PhotoJobOf(dir, records[k]).Some?
    {
      AttachmentJob(dir, raw[k]);
    }
    MapAllEach(records, (p: Json) => Functions.PhotoJobOf(dir, p));
  }

  /** `get_attachments` as a `for` loop that appends one record per item; the peer is whatever the caller asks with. */
  method GetAttachments(peer: Json, history: Json -> Json) returns (r: Option<seq<Json>>)
    ensures r == Attachments(history(peer))
  {
    var items := Item(history(peer), "items");
    if items.None? {
      return None;
    }
    var raw := Iter(items.value);
    if raw.None? {
      return None;
    }
    r := MapEach(raw.value, AttachmentRecord);
  }

  // ---------------------------------------------------------------------
  // The three `main`s
  // ---------------------------------------------------------------------

  /**
   * The API as the chat downloaders see it: `messages.getConversationsById`
   * by peer, `messages.getChat` by chat id, `account.getProfileInfo`,
   * `messages.getHistoryAttachments` by peer (an int for a chat, the id
   * string as given for a user conversation) and the `users.get` response
   * for the conversation's user.
   */
  datatype ChatWorld = ChatWorld(conversations: int -> Json, chats: int -> Json, profile: Json,
                                 history: Json -> Json, names: Json)

  /** What `ChatMembersPhotoDownloader.main` does. */
  datatype MembersRun =
    | MembersRaised                          // an exception ends the run
    | Left(folder: string)                   // the member list is empty: nothing is downloaded
    | Members(folder: string, ids: seq<Json>) // the user downloader runs on `ids` under the chat's folder

  /**
   * The chat's folder name: `int(chat_id)` (in the constructor), the utils
   * check, then the title of the chat `str(self.chat_id)` names, which
   * `joinpath` accepts only as a string.
   */
  function ChatFolder(chatId: string, conversations: int -> Json, hasUtils: bool): (r: Option<(int, string)>)
    ensures r.Some? ==> hasUtils && ParseInt(chatId) == Some(r.value.0)
    ensures r.Some? ==> VkUtils.GetChatTitle(IntToString(r.value.0), conversations) == Some(r.value.1)
  {
    match ParseInt(chatId)
    case None => None
    case Some(n) => FolderFrom(n, Cli.ChatTitle(IntToString(n), conversations), hasUtils)
  }

  /** The folder of chat `n` given the raw title read for it. */
  function FolderFrom(n: int, title: Option<Json>, hasUtils: bool): Option<(int, string)> {
    if !hasUtils then None
    else
      match title
      case None => None
      case Some(t) => if t.Str? then Some((n, t.s)) else None
  }

  /** The title comes from the conversation of peer 2000000000 + the chat id, whatever spelling of it was given. */
  lemma ChatFolderPeer(chatId: string, c1: int -> Json, c2: int -> Json, hasUtils: bool)
    requires ParseInt(chatId).Some?
    requires c1(VkUtils.PeerBase + ParseInt(chatId).value) == c2(VkUtils.PeerBase + ParseInt(chatId).value)
    ensures ChatFolder(chatId, c1, hasUtils) == ChatFolder(chatId, c2, hasUtils)
  {
    var n := ParseInt(chatId).value;
    VkUtils.ChatPeerOf(n);
    Cli.ChatTitlePeer(IntToString(n), c1, c2);
  }

  /**
   * `ChatMembersPhotoDownloader.main`: an empty member list downloads
   * nothing; otherwise the user downloader gets the positive members less
   * the current user.
   */
  function ChatMembersMain(chatId: string, w: ChatWorld, hasUtils: bool): (r: MembersRun)
    ensures r.Left? <==> (ChatFolder(chatId, w.conversations, hasUtils).Some?
      && Item(w.chats(ChatFolder(chatId, w.conversations, hasUtils).value.0), "users") == Some(Arr([])))
    ensures r.Members? ==> (ChatFolder(chatId, w.conversations, hasUtils).Some?
      && var members := Item(w.chats(ChatFolder(chatId, w.conversations, hasUtils).value.0), "users");
         && members.Some? && members != Some(Arr([]))
         && MemberIds(members.value, Cli.CurrentUserId(w.profile)) == Some(r.ids))
    ensures !r.MembersRaised? ==> r.folder == ChatFolder(chatId, w.conversations, hasUtils).value.1
  {
    match ChatFolder(chatId, w.conversations, hasUtils)
    case None => MembersRaised
    case Some((n, folder)) =>
      match Item(w.chats(n), "users")
      case None => MembersRaised
      case Some(members) =>
        if members == Arr([]) then Left(folder)
        else
          match MemberIds(members, Cli.CurrentUserId(w.profile))
          case None => MembersRaised
          case Some(ids) => Members(folder, ids)
  }

  /** What the history holds for the peer 2000000000 + `n` of chat `n`. */
  function PeerHistory(w: ChatWorld, n: int): Json {
    w.history(Int(VkUtils.PeerBase + n))
  }

  /** What the attachment downloaders do. */
  datatype ChatRun =
    | ChatRaised                                  // an exception ends the run
    | Download(folder: string, photos: seq<Json>) // `download_photos(folder, photos)`, then the duplicate check

  /**
   * `ChatPhotoDownloader.main`: the chat's folder, then the attachments of
   * the peer 2000000000 + chat id.
   */
  function ChatPhotoMain(chatId: string, w: ChatWorld, hasUtils: bool): (r: ChatRun)
    ensures var f := ChatFolder(chatId, w.conversations, hasUtils);
      r.Download? <==> f.Some? && Attachments(PeerHistory(w, f.value.0)).Some?
    ensures var f := ChatFolder(chatId, w.conversations, hasUtils);
      r.Download? ==> (r.folder == f.value.1 && Some(r.photos) == Attachments(PeerHistory(w, f.value.0)))
  {
    var f := ChatFolder(chatId, w.conversations, hasUtils);
    if f.None? then ChatRaised
    else
      var photos := Attachments(PeerHistory(w, f.value.0));
      if photos.None? then ChatRaised else Download(f.value.1, photos.value)
  }

  /** The folder of a conversation with a user: "Переписка " and the user name. */
  const ConversationPrefix: string := "Переписка "

  /**
   * `ChatUserPhotoDownloader.main`: the utils check, the folder named after
   * the user, then the attachments of the peer that is the id exactly as
   * given (no `int()`, no offset).
   */
  function ChatUserMain(chatId: string, w: ChatWorld, hasUtils: bool): (r: ChatRun)
    ensures r.Download? <==> hasUtils && VkUtils.GetUsername(w.names).Some? && Attachments(w.history(Str(chatId))).Some?
    ensures r.Download? ==> (r.folder == ConversationPrefix + VkUtils.GetUsername(w.names).value
      && Some(r.photos) == Attachments(w.history(Str(chatId))))
  {
    if !hasUtils then ChatRaised
    else
      match VkUtils.GetUsername(w.names)
      case None => ChatRaised
      case Some(username) =>
        match Attachments(w.history(Str(chatId)))
        case None => ChatRaised
        case Some(photos) => Download(ConversationPrefix + username, photos)
  }

  /**
   * The two attachment downloaders ask about different peers: the chat one
   * only about 2000000000 + id, the conversation one only about the id
   * string itself; what the history holds for any other peer changes
   * nothing.
   */
  lemma AttachmentPeers(chatId: string, w1: ChatWorld, w2: ChatWorld, hasUtils: bool)
    requires w1.conversations == w2.conversations && w1.names == w2.names
    ensures ParseInt(chatId).Some? && PeerHistory(w1, ParseInt(chatId).value) == PeerHistory(w2, ParseInt(chatId).value)
      ==> ChatPhotoMain(chatId, w1, hasUtils) == ChatPhotoMain(chatId, w2, hasUtils)
    ensures w1.history(Str(chatId)) == w2.history(Str(chatId)) ==> ChatUserMain(chatId, w1, hasUtils) == ChatUserMain(chatId, w2, hasUtils)
  {
    if ParseInt(chatId).Some? && PeerHistory(w1, ParseInt(chatId).value) == PeerHistory(w2, ParseInt(chatId).value) {
      ChatPhotoPeer(chatId, w1, w2, hasUtils);
    }
  }

  /** The chat downloader reads only the history of peer 2000000000 + id. */
  lemma ChatPhotoPeer(chatId: string, w1: ChatWorld, w2: ChatWorld, hasUtils: bool)
    requires w1.conversations == w2.conversations && w1.names == w2.names
    requires ParseInt(chatId).Some? && PeerHistory(w1, ParseInt(chatId).value) == PeerHistory(w2, ParseInt(chatId).value)
    ensures ChatPhotoMain(chatId, w1, hasUtils) == ChatPhotoMain(chatId, w2, hasUtils)
  {
    var f := ChatFolder(chatId, w1.conversations, hasUtils);
    assert f == ChatFolder(chatId, w2.conversations, hasUtils);
    if f.Some? {
      assert ParseInt(chatId).value == f.value.0;
    }
  }
}
