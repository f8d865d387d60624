/**
 * The archiver's exception hierarchy: the base error with a message,
 * optional details and an optional wrapped exception, eleven subclasses
 * with their extra fields, the `isinstance` relation and the `__str__` rule.
 */
module Exceptions {
  import opened Wrappers
  import opened JsonValues

  /** The wrapped `original_exception`: any Python exception, by type name and text. */
  datatype Cause = Cause(typeName: string, text: string)

  /** Which class an error is, with the fields that class adds; unset fields are None. */
  datatype Kind =
    | Base
    | Authentication
    | Configuration
    | Validation
    | Download(url: Option<string>, filePath: Option<string>)
    | Api(apiMethod: Option<string>, responseData: Option<Json>)
    | FileSystem(filePath: Option<string>, operation: Option<string>)
    | Network(url: Option<string>, statusCode: Option<int>)
    | RateLimit(apiMethod: Option<string>, responseData: Option<Json>, retryAfter: Option<int>)
    | Permission(resource: Option<string>, requiredPermission: Option<string>)
    | ResourceNotFound(resourceType: Option<string>, resourceId: Option<string>)
    | Initialization(component: Option<string>)

  datatype VKError = VKError(kind: Kind, message: string, details: Option<string>, original: Option<Cause>)

  /** The Python classes, for `isinstance`. */
  datatype ErrorClass =
    | VKScroblerErrorClass
    | AuthenticationErrorClass
    | ConfigurationErrorClass
    | ValidationErrorClass
    | DownloadErrorClass
    | APIErrorClass
    | FileSystemErrorClass
    | NetworkErrorClass
    | RateLimitErrorClass
    | PermissionErrorClass
    | ResourceNotFoundErrorClass
    | InitializationErrorClass

  function ClassOf(k: Kind): ErrorClass {
    match k
    case Base => VKScroblerErrorClass
    case Authentication => AuthenticationErrorClass
    case Configuration => ConfigurationErrorClass
    case Validation => ValidationErrorClass
    case Download(_, _) => DownloadErrorClass
    case Api(_, _) => APIErrorClass
    case FileSystem(_, _) => FileSystemErrorClass
    case Network(_, _) => NetworkErrorClass
    case RateLimit(_, _, _) => RateLimitErrorClass
    case Permission(_, _) => PermissionErrorClass
    case ResourceNotFound(_, _) => ResourceNotFoundErrorClass
    case Initialization(_) => InitializationErrorClass
  }

  /** The direct base class of each class; RateLimitError derives from APIError, the rest from the base. */
  function Parent(c: ErrorClass): Option<ErrorClass> {
    match c
    case VKScroblerErrorClass => None
    case RateLimitErrorClass => Some(APIErrorClass)
    case _ => Some(VKScroblerErrorClass)
  }

  /** The class and all its bases. */
  function Ancestry(c: ErrorClass): set<ErrorClass>
    decreases if c == VKScroblerErrorClass then 0 else if Parent(c) == Some(VKScroblerErrorClass) then 1 else 2
  {
    match Parent(c)
    case None => {c}
    case Some(p) => {c} + Ancestry(p)
  }

  /** Python `isinstance(e, cls)`. */
  predicate IsInstance(e: VKError, cls: ErrorClass) {
    cls in Ancestry(ClassOf(e.kind))
  }

  /** `VKScroblerError.__str__`, inherited unchanged by every subclass. */
  function Str(e: VKError): (r: string)
    ensures e.details.Some? && e.details.value != "" ==> r == e.message + ": " + e.details.value
    ensures e.details.None? || e.details.value == "" ==> r == e.message
  {
    match e.details
    case Some(d) => if d != "" then e.message + ": " + d else e.message
    case None => e.message
  }

  /** `VKScroblerError(message, details=None, original_exception=None)` and the subclasses without extra fields. */
  function NewError(kind: Kind, message: string, details: Option<string>, original: Option<Cause>): (e: VKError)
    ensures e.message == message && e.details == details && e.original == original && e.kind == kind
    ensures IsInstance(e, VKScroblerErrorClass)
  {
    AllAreBase(VKError(kind, message, details, original));
    VKError(kind, message, details, original)
  }

  /**
   * `RateLimitError(message, details, original_exception, retry_after, api_method)`:
   * it passes `api_method` on to APIError, which leaves `response_data` unset.
   */
  function NewRateLimitError(message: string, details: Option<string>, original: Option<Cause>,
                             retryAfter: Option<int>, apiMethod: Option<string>): (e: VKError)
    ensures IsInstance(e, APIErrorClass) && IsInstance(e, VKScroblerErrorClass)
    ensures ClassOf(e.kind) == RateLimitErrorClass
    ensures e.kind.apiMethod == apiMethod && e.kind.responseData == None && e.kind.retryAfter == retryAfter
    ensures e.message == message && e.details == details && e.original == original
  {
    VKError(RateLimit(apiMethod, None, retryAfter), message, details, original)
  }

  /** Every error of the hierarchy is a VKScroblerError. */
  lemma AllAreBase(e: VKError)
    ensures IsInstance(e, VKScroblerErrorClass)
  {
  }

  /** Only RateLimitError and APIError itself are APIErrors; no other subclass is one. */
  lemma ApiErrorInstances(e: VKError)
    ensures IsInstance(e, APIErrorClass) <==> e.kind.Api? || e.kind.RateLimit?
  {
  }

  /** With no details, `str(e)` is exactly the message, for every subclass. */
  lemma StrWithoutDetails(kind: Kind, message: string, original: Option<Cause>)
    ensures Str(NewError(kind, message, None, original)) == message
  {
  }
}
