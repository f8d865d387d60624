/**
 * The command-line front end of the photo downloader: the option
 * validators of `CLIParameterValidator`, the configuration check of
 * `Utils`, the chat title and current user id `Utils` reads, and the
 * gates the commands pass an id through before any download starts.
 *
 * `Utils.check_*_id` apply the rule of the validator's checks, asked
 * through the `Utils` instance's session, which is unauthenticated until
 * `auth_by_token` runs; the API is a function value as there.
 */
module Cli {
  import opened Wrappers
  import opened Text
  import opened JsonValues
  import opened Validation
  import VkUtils

  /** The largest id accepted: 2147483647, the largest signed 32-bit integer. */
  const MaxId: int := 0x7FFF_FFFF

  /** An id option `int()` accepts and that lies in [1, 2147483647]. */
  predicate InRange(id: string) {
    ParseInt(id).Some? && 1 <= ParseInt(id).value <= MaxId
  }

  /**
   * `validate_user_id` / `validate_group_id` / `validate_chat_id`: no
   * option gives None, an id in range is returned as it was given (spaces
   * and sign included), anything else raises BadParameter.
   */
  function ValidateId(e: Entity, id: Option<string>): (r: Result<Option<string>, string>)
    ensures id.None? ==> r == Ok(None)
    ensures id.Some? ==> (r.Ok? <==> InRange(id.value))
    ensures r.Ok? ==> r.value == id
    ensures r.Err? ==> r.error == "Invalid " + Label(e) + " ID: " + id.value
  {
    match id
    case None => Ok(None)
    case Some(s) =>
      match ParseInt(s)
      case Some(n) => if 1 <= n <= MaxId then Ok(Some(s)) else Err("Invalid " + Label(e) + " ID: " + s)
      case None => Err("Invalid " + Label(e) + " ID: " + s)
  }

  /** The three validators accept the same ids. */
  lemma ValidateIdSameRule(e1: Entity, e2: Entity, id: Option<string>)
    ensures ValidateId(e1, id).Ok? <==> ValidateId(e2, id).Ok?
  {
  }

  /** The decimal rendering of every id in [1, 2147483647] is accepted, and of no other integer. */
  lemma ValidateIdRendered(e: Entity, n: int)
    ensures ValidateId(e, Some(IntToString(n))).Ok? <==> 1 <= n <= MaxId
  {
    ParseIntRoundTrip(n);
  }

  /** An accepted id also parses for the API check that follows it. */
  lemma AcceptedIdParses(e: Entity, id: string, api: (Entity, int) -> ApiOutcome)
    requires ValidateId(e, Some(id)).Ok?
    ensures Check(e, id, api) <==> (api(e, QueryId(e, ParseInt(id).value)).Answer?
      && Found(e, api(e, QueryId(e, ParseInt(id).value)).response) == Ok(true))
  {
  }

  /** Why `_validate_config` refuses a configuration. */
  datatype ConfigError = CredentialsForbidden | NotAContainer

  /**
   * `Utils._validate_config`: a configuration holding a "login" or a
   * "password" key is refused; `in` on a value that is not a container
   * raises TypeError. "password" is not looked at when "login" is there.
   */
  function ValidateConfig(config: Json): (r: Result<(), ConfigError>)
    ensures config.Obj? ==>
      (r.Ok? <==> Lookup(config.fields, "login").None? && Lookup(config.fields, "password").None?)
    ensures r == Err(NotAContainer) <==> !(config.Obj? || config.Arr? || config.Str?)
  {
    match In("login", config)
    case None => Err(NotAContainer)
    case Some(login) =>
      if login then Err(CredentialsForbidden)
      else
        match In("password", config)
        case None => Err(NotAContainer)
        case Some(password) => if password then Err(CredentialsForbidden) else Ok(())
  }

  /** A token-only configuration passes, whatever else it holds. */
  lemma TokenOnlyConfigPasses(token: Json, rest: seq<(string, Json)>)
    requires Lookup(rest, "login").None? && Lookup(rest, "password").None?
    ensures ValidateConfig(Obj([("token", token)] + rest)).Ok?
  {
    LookupFront("token", token, rest, "login");
    LookupFront("token", token, rest, "password");
  }

  /** `Utils.get_chat_title`: the raw title of the conversation of peer 2000000000 + chat id. */
  function ChatTitle(chatId: string, conversations: int -> Json): (r: Option<Json>)
    ensures r.Some? ==> VkUtils.GetChatTitle(chatId, conversations) == Some(ToStr(r.value))
    ensures r.None? ==> VkUtils.GetChatTitle(chatId, conversations).None?
  {
    match VkUtils.ChatPeer(chatId)
    case None => None
    case Some(peer) =>
      match Item(conversations(peer), "items")
      case None => None
      case Some(items) =>
        match First(items)
        case None => None
        case Some(item) =>
          match Item(item, "chat_settings")
          case None => None
          case Some(settings) => Item(settings, "title")
  }

  /** The title is read from the conversation of the chat's peer 2000000000 + id and from nothing else. */
  lemma ChatTitlePeer(chatId: string, c1: int -> Json, c2: int -> Json)
    requires VkUtils.ChatPeer(chatId).Some?
    requires c1(VkUtils.ChatPeer(chatId).value) == c2(VkUtils.ChatPeer(chatId).value)
    ensures ChatTitle(chatId, c1) == ChatTitle(chatId, c2)
  {
  }

  /** `Utils.get_user_id`: `account.getProfileInfo()["id"]`. */
  function CurrentUserId(profile: Json): Option<Json> {
    Item(profile, "id")
  }

  /**
   * The VK session of the module's `Utils` instance: `_vk` is None until
   * `auth_by_token` succeeds. While it is None the `vk` property raises
   * RuntimeError, and each `check_*_id` catches that and answers False.
   */
  datatype Session = Unauthenticated | Authenticated(api: (Entity, int) -> ApiOutcome)

  /** The instance `utils = Utils()` builds at import: `_vk` is still the class attribute None. */
  const FreshSession: Session := Unauthenticated

  /**
   * `Utils.check_user_id` / `check_group_id` / `check_chat_id`: the rule of
   * the validator's checks, asked through the instance's session.
   */
  function UtilsCheck(e: Entity, id: string, s: Session): bool {
    match s
    case Unauthenticated => false
    case Authenticated(api) => Check(e, id, api)
  }

  /** What `vk_api.VkApi(token=...).get_api()` does with the token: refuses it, or gives the API. */
  datatype Login = LoginRefused | LoggedIn(api: (Entity, int) -> ApiOutcome)

  /** `config.get("token")` is truthy; `.get` on a configuration that is not a dict raises. */
  predicate HasToken(config: Json) {
    Get(config, "token", Null).Some? && Truthy(Get(config, "token", Null).value)
  }

  /**
   * `Utils.auth_by_token`: without a truthy "token" it raises "VK access
   * token is required"; a token the library refuses raises "Invalid VK
   * access token"; otherwise `_vk` holds the API.
   */
  function AuthByToken(config: Json, login: Login): (r: Result<Session, string>)
    ensures r.Ok? <==> HasToken(config) && login.LoggedIn?
    ensures r.Ok? ==> r.value.Authenticated? && r.value.api == login.api
    ensures !HasToken(config) && config.Obj? ==> r == Err("VK access token is required")
  {
    match Get(config, "token", Null)
    case None => Err("AttributeError")
    case Some(token) =>
      if !Truthy(token) then Err("VK access token is required")
      else
        match login
        case LoginRefused => Err("Invalid VK access token")
        case LoggedIn(api) => Ok(Authenticated(api))
  }

  /**
   * The check of the `user`, `group`, `chat-members`, `chat-attachments`,
   * `user-chat` and `group-albums` commands: the option is validated, must
   * be given, and must name an existing entity as the session sees it.
   */
  function SingleGate(e: Entity, id: Option<string>, s: Session): (r: Result<string, string>)
    ensures r.Ok? <==> id.Some? && InRange(id.value) && s.Authenticated? && Check(e, id.value, s.api)
    ensures r.Ok? ==> r.value == id.value
    ensures id.Some? && InRange(id.value) && !UtilsCheck(e, id.value, s) ==>
      r == Err(Title(e) + " with ID " + id.value + " does not exist")
  {
    match ValidateId(e, id)
    case Err(message) => Err(message)
    case Ok(None) => Err(Title(e) + " ID is required")
    case Ok(Some(x)) => if UtilsCheck(e, x, s) then Ok(x) else Err(Title(e) + " with ID " + x + " does not exist")
  }

  /**
   * A single-id command as written: the id goes through the check with the
   * session the command starts with, and only then `auth_by_token` runs.
   * On success the downloader gets the id as given and the API.
   */
  function SingleCommand(e: Entity, id: Option<string>, s: Session, config: Json, login: Login)
    : (r: Result<string, string>)
    ensures r.Ok? <==> SingleGate(e, id, s).Ok? && AuthByToken(config, login).Ok?
    ensures r.Ok? ==> r.value == id.value
  {
    match SingleGate(e, id, s)
    case Err(message) => Err(message)
    case Ok(x) =>
      match AuthByToken(config, login)
      case Err(message) => Err(message)
      case Ok(_) => Ok(x)
  }

  /**
   * In a fresh process every single-id command fails before it
   * authenticates, whatever VK holds: an id in range is reported as not
   * existing.
   */
  lemma FreshCommandRejects(e: Entity, id: Option<string>, config: Json, login: Login)
    ensures SingleCommand(e, id, FreshSession, config, login).Err?
    ensures id.Some? && InRange(id.value) ==>
      SingleCommand(e, id, FreshSession, config, login) == Err(Title(e) + " with ID " + id.value + " does not exist")
  {
  }

  /**
   * The command with `auth_by_token` moved before the check: the id is
   * validated, the session authenticated, and the check asks the API.
   */
  function AuthFirstCommand(e: Entity, id: Option<string>, config: Json, login: Login): (r: Result<string, string>)
    ensures r.Ok? <==> (id.Some? && InRange(id.value) && HasToken(config) && login.LoggedIn?
      && Check(e, id.value, login.api))
    ensures r.Ok? ==> r.value == id.value
    ensures id.Some? && InRange(id.value) && HasToken(config) && login.LoggedIn? && !Check(e, id.value, login.api) ==>
      r == Err(Title(e) + " with ID " + id.value + " does not exist")
  {
    match ValidateId(e, id)
    case Err(message) => Err(message)
    case Ok(None) => Err(Title(e) + " ID is required")
    case Ok(Some(_)) =>
      match AuthByToken(config, login)
      case Err(message) => Err(message)
      case Ok(session) => SingleGate(e, id, session)
  }

  /** The comma-separated pieces of an id list, each stripped of surrounding whitespace. */
  function StrippedPieces(ids: string): (r: seq<string>)
    ensures |r| == |Split(ids, ',')| >= 1
    ensures forall k :: 0 <= k < |r| ==> r[k] == Strip(Split(ids, ',')[k])
  {
    var pieces := Split(ids, ',');
    seq(|pieces|, k requires 0 <= k < |pieces| => Strip(pieces[k]))
  }

  /**
   * The loop of the `users` and `groups` commands over the stripped pieces:
   * each goes through `gate` in turn; the first that fails raises its
   * error, otherwise all the pieces go on.
   */
  method GateEach(pieces: seq<string>, gate: string -> Result<string, string>) returns (r: Result<seq<string>, string>)
    ensures r.Ok? <==> forall k :: 0 <= k < |pieces| ==> gate(pieces[k]).Ok?
    ensures r.Ok? ==> r.value == pieces
    ensures r.Err? ==> exists k :: (0 <= k < |pieces| && gate(pieces[k]) == Err(r.error)
      && forall j :: 0 <= j < k ==> gate(pieces[j]).Ok?)
  {
    for i := 0 to |pieces|
      invariant forall k :: 0 <= k < i ==> gate(pieces[k]).Ok?
    {
      var passed := gate(pieces[i]);
      if passed.Err? {
        return Err(passed.error);
      }
    }
    return Ok(pieces);
  }

  /** The single-id check as a function value. */
  function Gate(e: Entity, s: Session): string -> Result<string, string> {
    (id: string) => SingleGate(e, Some(id), s)
  }

  /**
   * The check of the `users` and `groups` commands: every stripped piece
   * goes through the single-id check with the session given; the first
   * that fails raises its BadParameter, otherwise the stripped pieces go on.
   */
  method ListGate(e: Entity, ids: string, s: Session) returns (r: Result<seq<string>, string>)
    ensures var pieces, gate := StrippedPieces(ids), Gate(e, s);
      && (r.Ok? <==> forall k :: 0 <= k < |pieces| ==> gate(pieces[k]).Ok?)
      && (r.Ok? ==> r.value == pieces)
      && (r.Err? ==> exists k :: (0 <= k < |pieces| && gate(pieces[k]) == Err(r.error)
            && forall j :: 0 <= j < k ==> gate(pieces[j]).Ok?))
  {
    r := GateEach(StrippedPieces(ids), Gate(e, s));
  }

  /**
   * A list passes the check exactly when the session is authenticated and
   * every stripped piece is an id in range that names an existing entity.
   */
  lemma ListGateAdmits(e: Entity, ids: string, s: Session)
    ensures var pieces := StrippedPieces(ids);
      (forall k :: 0 <= k < |pieces| ==> Gate(e, s)(pieces[k]).Ok?)
      <==> (s.Authenticated? && forall k :: 0 <= k < |pieces| ==> InRange(pieces[k]) && Check(e, pieces[k], s.api))
  {
    var pieces := StrippedPieces(ids);
    forall k | 0 <= k < |pieces|
      ensures Gate(e, s)(pieces[k]).Ok? <==> s.Authenticated? && InRange(pieces[k]) && Check(e, pieces[k], s.api)
    {
      assert Gate(e, s)(pieces[k]) == SingleGate(e, Some(pieces[k]), s);
    }
    assert Gate(e, s)(pieces[0]) == SingleGate(e, Some(pieces[0]), s);
  }

  /** In a fresh process the `users` and `groups` commands reject every list: its first piece already fails. */
  lemma FreshListRejects(e: Entity, ids: string)
    ensures Gate(e, FreshSession)(StrippedPieces(ids)[0]).Err?
  {
    assert Gate(e, FreshSession)(StrippedPieces(ids)[0]) == SingleGate(e, Some(StrippedPieces(ids)[0]), FreshSession);
  }

  /**
   * The `users` and `groups` commands with `auth_by_token` moved before
   * the loop: the pieces go on exactly when the token logs in and every
   * piece is an id in range naming an existing entity.
   */
  method AuthFirstListCommand(e: Entity, ids: string, config: Json, login: Login) returns (r: Result<seq<string>, string>)
    ensures r.Ok? <==> HasToken(config) && login.LoggedIn? && var pieces := StrippedPieces(ids);
      forall k :: 0 <= k < |pieces| ==> InRange(pieces[k]) && Check(e, pieces[k], login.api)
    ensures r.Ok? ==> r.value == StrippedPieces(ids)
  {
    var session := AuthByToken(config, login);
    if session.Err? {
      return Err(session.error);
    }
    ListGateAdmits(e, ids, session.value);
    r := ListGate(e, ids, session.value);
  }
}
