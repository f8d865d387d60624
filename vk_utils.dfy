/**
 * The helpers of the `Utils` facade that carry VK-specific rules: the
 * title sanitiser for folder names, the canonical group folder
 * "{id}-{title}", the group title as `get_group_title` cleans it, the peer
 * id of a chat and the "first last" user name.
 *
 * Each API call is replaced by its decoded response, passed in; a response
 * of the wrong shape raises, which is `None` here.
 */
module VkUtils {
  import opened Wrappers
  import opened Text
  import opened JsonValues
  import Naming

  /** The characters `_sanitize_title_for_fs` replaces with a space. */
  const FsChars: seq<char> := ['/', '|', '\\', ':', '*', '?', '"', '<', '>', '.']

  /** `_sanitize_title_for_fs`: none of `FsChars` left, no edge whitespace, never longer. */
  function SanitizeTitleForFs(title: string): (r: string)
    ensures forall i :: 0 <= i < |r| ==> r[i] !in FsChars
    ensures Trimmed(r) && |r| <= |title|
  {
    Naming.SanitizeClean(title, FsChars);
    Naming.Sanitize(title, FsChars)
  }

  /** Sanitising twice is sanitising once. */
  lemma SanitizeTitleForFsIdempotent(title: string)
    ensures SanitizeTitleForFs(SanitizeTitleForFs(title)) == SanitizeTitleForFs(title)
  {
    Naming.SanitizeIdempotent(title, FsChars);
  }

  /** A title that is already clean is kept as it is. */
  lemma SanitizeTitleForFsKeeps(title: string)
    requires Trimmed(title) && forall i :: 0 <= i < |title| ==> title[i] !in FsChars
    ensures SanitizeTitleForFs(title) == title
  {
    Naming.SanitizeKeeps(title, FsChars);
  }

  /** `ResolvedGroup`: what `resolve_group` returns. */
  datatype ResolvedGroup = ResolvedGroup(id: int, screenName: string, name: string, sanitizedName: string, folderName: string)

  /**
   * `resolve_group` on the `groups.getById` response: the first group's
   * `int(id)`, its name and screen name (default ""), the sanitised name and
   * the folder "{id}-{sanitised}"; `None` when the response has no first
   * group, the group is not a dict, or its id is missing or not an integer.
   */
  function ResolveGroup(response: Json): (r: Option<ResolvedGroup>)
    ensures r.Some? <==> First(response).Some? && Item(First(response).value, "id").Some? && ToInt(Field(First(response).value, "id")).Some?
    ensures r.Some? ==>
      && r.value.id == ToInt(Field(First(response).value, "id")).value
      && r.value.sanitizedName == SanitizeTitleForFs(r.value.name)
      && r.value.folderName == IntToString(r.value.id) + "-" + r.value.sanitizedName
  {
    match First(response)
    case None => None
    case Some(info) =>
      match Item(info, "id")
      case None => None
      case Some(rawId) =>
        match ToInt(rawId)
        case None => None
        case Some(id) =>
          var name := ToStr(Get(info, "name", Str("")).value);
          var screenName := ToStr(Get(info, "screen_name", Str("")).value);
          var sanitized := SanitizeTitleForFs(name);
          Some(ResolvedGroup(id, screenName, name, sanitized, IntToString(id) + "-" + sanitized))
  }

  /**
   * The folder name determines the group: two resolved groups with
   * different ids never share a folder, whatever their titles, and the id
   * and the sanitised title can both be read back from it.
   */
  lemma FolderNameDetermines(g1: ResolvedGroup, g2: ResolvedGroup)
    requires g1.folderName == IntToString(g1.id) + "-" + g1.sanitizedName
    requires g2.folderName == IntToString(g2.id) + "-" + g2.sanitizedName
    requires g1.folderName == g2.folderName
    ensures g1.id == g2.id && g1.sanitizedName == g2.sanitizedName
  {
    assert IntToString(g1.id) + ['-'] + g1.sanitizedName == IntToString(g2.id) + ['-'] + g2.sanitizedName;
    IntPrefixUnique(g1.id, g2.id, '-', g1.sanitizedName, g2.sanitizedName);
  }

  /** The characters `get_group_title` (and the group downloaders) replace with a space. */
  const GroupNameChars: seq<char> := ['/', '|', '.']

  /**
   * A group's `name` with '/', '|' and '.' replaced by spaces, then
   * stripped; `None` when the group is not a dict, has no name, or the name
   * is not a string.
   */
  function GroupTitle(info: Json): (r: Option<string>)
    ensures r.Some? <==> Item(info, "name").Some? && Field(info, "name").Str?
    ensures r.Some? ==> (forall i :: 0 <= i < |r.value| ==> r.value[i] !in GroupNameChars) && Trimmed(r.value)
    ensures r.Some? ==> |r.value| <= |Field(info, "name").s|
  {
    match Item(info, "name")
    case None => None
    case Some(name) =>
      if name.Str? then
        Naming.SanitizeClean(name.s, GroupNameChars);
        Some(Naming.Sanitize(name.s, GroupNameChars))
      else None
  }

  /** Only '/', '|', '.' and edge whitespace are touched: a name free of them comes back unchanged. */
  lemma GroupTitleKeeps(info: Json)
    requires Item(info, "name").Some? && Field(info, "name").Str?
    requires var n := Field(info, "name").s; Trimmed(n) && forall i :: 0 <= i < |n| ==> n[i] !in GroupNameChars
    ensures GroupTitle(info) == Some(Field(info, "name").s)
  {
    Naming.SanitizeKeeps(Field(info, "name").s, GroupNameChars);
  }

  /** `get_group_title` on the `groups.getById` response: the first group's title. */
  function GetGroupTitle(response: Json): (r: Option<string>)
    ensures r.Some? <==> First(response).Some? && GroupTitle(First(response).value).Some?
    ensures r.Some? ==> r == GroupTitle(First(response).value)
  {
    match First(response)
    case None => None
    case Some(info) => GroupTitle(info)
  }

  /** Chat ids become peer ids by adding this offset. */
  const PeerBase: int := 2000000000

  /** `2000000000 + int(chat_id)`: `None` when the chat id is not an integer. */
  function ChatPeer(chatId: string): (r: Option<int>)
    ensures r.Some? <==> ParseInt(chatId).Some?
    ensures r.Some? ==> r.value - PeerBase == ParseInt(chatId).value
  {
    match ParseInt(chatId)
    case None => None
    case Some(c) => Some(PeerBase + c)
  }

  /** The peer of a rendered chat id is that id plus 2000000000, so different chats have different peers. */
  lemma ChatPeerOf(chat: int)
    ensures ChatPeer(IntToString(chat)) == Some(PeerBase + chat)
  {
    ParseIntRoundTrip(chat);
  }

  /** `c["items"][0]["chat_settings"]["title"]` can be read. */
  predicate TitlePresent(c: Json) {
    && Item(c, "items").Some? && First(Field(c, "items")).Some?
    && Item(First(Field(c, "items")).value, "chat_settings").Some?
    && Item(Field(First(Field(c, "items")).value, "chat_settings"), "title").Some?
  }

  /**
   * `get_chat_title`: the conversation of the chat's peer, then
   * `["items"][0]["chat_settings"]["title"]` as a string. `conversations`
   * is what `messages.getConversationsById` returns for a peer id.
   */
  function GetChatTitle(chatId: string, conversations: int -> Json): (r: Option<string>)
    ensures r.Some? ==> ChatPeer(chatId).Some?
  {
    match ChatPeer(chatId)
    case None => None
    case Some(peer) =>
      var c := conversations(peer);
      match Item(c, "items")
      case None => None
      case Some(items) =>
        match First(items)
        case None => None
        case Some(item) =>
          match Item(item, "chat_settings")
          case None => None
          case Some(settings) =>
            match Item(settings, "title")
            case None => None
            case Some(title) => Some(ToStr(title))
  }

  /**
   * A chat title exists exactly when the chat id gives a peer and the title
   * path of that peer's conversation is readable, and it is that title as a
   * string.
   */
  lemma GetChatTitleExact(chatId: string, conversations: int -> Json)
    ensures GetChatTitle(chatId, conversations).Some? <==>
      ChatPeer(chatId).Some? && TitlePresent(conversations(ChatPeer(chatId).value))
    ensures GetChatTitle(chatId, conversations).Some? ==>
      var c := conversations(ChatPeer(chatId).value);
      GetChatTitle(chatId, conversations).value == ToStr(Field(Field(First(Field(c, "items")).value, "chat_settings"), "title"))
  {
  }

  /**
   * `get_username` on the `users.get` response: the first user's
   * `first_name` and `last_name` as strings, joined by one space.
   */
  function GetUsername(response: Json): (r: Option<string>)
    ensures r.Some? <==> First(response).Some? && Item(First(response).value, "first_name").Some? && Item(First(response).value, "last_name").Some?
    ensures r.Some? ==>
      var first := ToStr(Field(First(response).value, "first_name"));
      var last := ToStr(Field(First(response).value, "last_name"));
      |r.value| == |first| + 1 + |last| && r.value[..|first|] == first && r.value[|first|] == ' ' && r.value[|first| + 1..] == last
  {
    match First(response)
    case None => None
    case Some(user) =>
      match Item(user, "first_name")
      case None => None
      case Some(f) =>
        match Item(user, "last_name")
        case None => None
        case Some(l) =>
          var first, last := ToStr(f), ToStr(l);
          assert (first + " " + last)[|first| + 1..] == last;
          Some(first + " " + last)
  }

  /** When the first name holds no space, splitting the user name on spaces gives it back as the first word. */
  lemma UsernameFirstWord(response: Json)
    requires GetUsername(response).Some?
    requires ' ' !in ToStr(Field(First(response).value, "first_name"))
    ensures Split(GetUsername(response).value, ' ')[0] == ToStr(Field(First(response).value, "first_name"))
  {
    var first := ToStr(Field(First(response).value, "first_name"));
    var name := GetUsername(response).value;
    var last := name[|first| + 1..];
    assert name == first + [' '] + last;
    IndexOfAfter(first, ' ', last);
  }
}
