/**
 * `VKValidator`: whether a user, a group or a chat exists. The `check_*`
 * methods answer with a boolean and never raise; the `validate_*` methods
 * return nothing or raise ValidationError (the id is not an integer),
 * ResourceNotFoundError (the API found nothing) or APIError (any other
 * failure). `Utils.check_*` in the command-line module apply the same rule
 * of their own, through the `Utils` instance's session.
 *
 * The API is a function from the entity kind and the integer it is queried
 * with to what the call returns or the exception it raises.
 */
module Validation {
  import opened Wrappers
  import opened Text
  import opened JsonValues
  import opened Exceptions
  import VkUtils

  datatype Entity = User | Group | Chat

  /** What one API call did: returned a response or raised. */
  datatype ApiOutcome = Answer(response: Json) | Failure(cause: Cause)

  /** The API method each entity is looked up with. */
  function ApiMethod(e: Entity): string {
    match e
    case User => "users.get"
    case Group => "groups.getById"
    case Chat => "messages.getConversationsById"
  }

  /** The lower-case name used as `resource_type` and in the messages. */
  function Label(e: Entity): string {
    match e
    case User => "user"
    case Group => "group"
    case Chat => "chat"
  }

  /** The capitalised name that starts two of the messages. */
  function Title(e: Entity): string {
    match e
    case User => "User"
    case Group => "Group"
    case Chat => "Chat"
  }

  /** The integer the call is made with: the id, or for a chat its peer id 2000000000 + id. */
  function QueryId(e: Entity, id: int): (q: int)
    ensures e == Chat ==> q == VkUtils.PeerBase + id
    ensures e != Chat ==> q == id
  {
    if e == Chat then VkUtils.PeerBase + id else id
  }

  /**
   * Whether the response names an existing entity: `len(response) != 0`,
   * or `response["count"] != 0` for a chat; the cause when the test itself
   * raises (the text of that TypeError or KeyError is not modelled).
   */
  function Found(e: Entity, response: Json): Result<bool, Cause> {
    if e == Chat then
      match Item(response, "count")
      case None => Err(Cause(if response.Obj? then "KeyError" else "TypeError", ""))
      case Some(count) => Ok(NonZero(count))
    else
      match Len(response)
      case None => Err(Cause("TypeError", ""))
      case Some(n) => Ok(n != 0)
  }

  /** `check_<entity>_id(id)`: every exception, from `int(id)`, the call or the test, gives False. */
  function Check(e: Entity, id: string, api: (Entity, int) -> ApiOutcome): bool {
    match ParseInt(id)
    case None => false
    case Some(n) =>
      match api(e, QueryId(e, n))
      case Failure(_) => false
      case Answer(response) => Found(e, response) == Ok(true)
  }

  /** The ValidationError for an id `int()` rejects. */
  function FormatError(e: Entity, id: string): VKError {
    NewError(Validation, "Invalid " + Label(e) + " ID format: " + id,
      Some(Title(e) + " ID must be a valid integer"),
      Some(Cause("ValueError", "invalid literal for int() with base 10: '" + id + "'")))
  }

  /** The ResourceNotFoundError for an entity the API does not know. */
  function NotFoundError(e: Entity, id: string): VKError {
    NewError(ResourceNotFound(Some(Label(e)), Some(id)), Title(e) + " with ID " + id + " does not exist", None, None)
  }

  /** The APIError wrapping whatever else was raised. */
  function ApiError(e: Entity, id: string, cause: Cause): VKError {
    NewError(Api(Some(ApiMethod(e)), None), "Failed to validate " + Label(e) + " ID: " + id,
      Some("VK API error: " + cause.text), Some(cause))
  }

  /**
   * `validate_<entity>_id(id)`: a ValidationError when the id is not an
   * integer, a ResourceNotFoundError (re-raised as it is) when the API
   * found nothing, an APIError naming the method for any other failure.
   */
  function Validate(e: Entity, id: string, api: (Entity, int) -> ApiOutcome): (r: Result<(), VKError>)
    ensures r.Err? && r.error.kind.Validation? <==> ParseInt(id).None?
    ensures r.Err? && r.error.kind.ResourceNotFound? ==>
      r.error.kind.resourceType == Some(Label(e)) && r.error.kind.resourceId == Some(id)
    ensures r.Err? && r.error.kind.Api? ==> r.error.kind.apiMethod == Some(ApiMethod(e)) && r.error.original.Some?
    ensures r.Err? ==> r.error.kind.Validation? || r.error.kind.ResourceNotFound? || r.error.kind.Api?
    ensures r.Err? && r.error.kind.ResourceNotFound? <==> (ParseInt(id).Some?
      && var outcome := api(e, QueryId(e, ParseInt(id).value));
         outcome.Answer? && Found(e, outcome.response) == Ok(false))
    ensures r.Err? && r.error.kind.Api? <==> (ParseInt(id).Some?
      && var outcome := api(e, QueryId(e, ParseInt(id).value));
         outcome.Failure? || Found(e, outcome.response).Err?)
  {
    match ParseInt(id)
    case None => Err(FormatError(e, id))
    case Some(n) =>
      match api(e, QueryId(e, n))
      case Failure(cause) => Err(ApiError(e, id, cause))
      case Answer(response) =>
        match Found(e, response)
        case Err(cause) => Err(ApiError(e, id, cause))
        case Ok(found) => if found then Ok(()) else Err(NotFoundError(e, id))
  }

  /** `check_*` holds exactly when `validate_*` would return without raising. */
  lemma CheckIsValidate(e: Entity, id: string, api: (Entity, int) -> ApiOutcome)
    ensures Check(e, id, api) <==> Validate(e, id, api).Ok?
  {
  }

  /** A user or a group exists exactly when the API returns a non-empty list (or other sized value) for its id. */
  lemma CheckUserOrGroup(e: Entity, id: string, api: (Entity, int) -> ApiOutcome)
    requires e != Chat
    ensures Check(e, id, api) <==> (ParseInt(id).Some? && api(e, ParseInt(id).value).Answer?
      && Len(api(e, ParseInt(id).value).response).Some? && Len(api(e, ParseInt(id).value).response) != Some(0))
  {
  }

  /** A chat exists exactly when the conversation of its peer id 2000000000 + id has a "count" other than 0. */
  lemma CheckChat(id: string, api: (Entity, int) -> ApiOutcome)
    ensures Check(Chat, id, api) <==> (ParseInt(id).Some?
      && var outcome := api(Chat, VkUtils.PeerBase + ParseInt(id).value);
         outcome.Answer? && Item(outcome.response, "count").Some? && NonZero(Field(outcome.response, "count")))
  {
  }

  /** The chat validator asks about the peer 2000000000 + id and nothing else. */
  lemma ValidateChatQueriesPeer(id: string, api1: (Entity, int) -> ApiOutcome, api2: (Entity, int) -> ApiOutcome)
    requires ParseInt(id).Some?
    requires api1(Chat, VkUtils.PeerBase + ParseInt(id).value) == api2(Chat, VkUtils.PeerBase + ParseInt(id).value)
    ensures Validate(Chat, id, api1) == Validate(Chat, id, api2)
  {
  }

  /** Every piece passes `check`. */
  predicate AllPass(pieces: seq<string>, check: string -> bool) {
    forall k :: 0 <= k < |pieces| ==> check(pieces[k])
  }

  /**
   * The loop of `check_user_ids` / `check_group_ids`: each piece is
   * checked in turn until one fails. `checked` is how many were checked.
   */
  method CheckEach(pieces: seq<string>, check: string -> bool) returns (ok: bool, checked: nat)
    ensures ok <==> AllPass(pieces, check)
    ensures checked <= |pieces| && forall k :: 0 <= k < checked - 1 ==> check(pieces[k])
    ensures ok ==> checked == |pieces|
    ensures !ok ==> checked >= 1 && !check(pieces[checked - 1])
  {
    checked := 0;
    while checked < |pieces|
      invariant checked <= |pieces|
      invariant forall k :: 0 <= k < checked ==> check(pieces[k])
    {
      var passed := check(pieces[checked]);
      checked := checked + 1;
      if !passed {
        return false, checked;
      }
    }
    return true, checked;
  }

  /** `check_<entity>_id` as a function value. */
  function Checker(e: Entity, api: (Entity, int) -> ApiOutcome): string -> bool {
    (id: string) => Check(e, id, api)
  }

  /**
   * `check_user_ids` / `check_group_ids`: true exactly when every
   * comma-separated piece checks out; the pieces after the first failure
   * are not checked.
   */
  method CheckIds(e: Entity, idsList: string, api: (Entity, int) -> ApiOutcome) returns (ok: bool, checked: nat)
    ensures var pieces, check := Split(idsList, ','), Checker(e, api);
      && (ok <==> AllPass(pieces, check))
      && checked <= |pieces|
      && (forall k :: 0 <= k < checked - 1 ==> check(pieces[k]))
      && (ok ==> checked == |pieces|)
      && (!ok ==> checked >= 1 && !check(pieces[checked - 1]))
  {
    ok, checked := CheckEach(Split(idsList, ','), Checker(e, api));
  }
}
