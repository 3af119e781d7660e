/**
 * The uniform response envelope `{success, status_code, status, message,
 * response}` and the data items the backend puts in it.
 */
module ApiResponse {
  import opened Wrappers
  import HttpStatus
  import Jwt
  import Schema

  /** The login result: both tokens and their type. */
  datatype TokenData = TokenData(accessToken: Jwt.Token, refreshToken: Jwt.Token, tokenType: string)

  /** The login-status profile: exactly these five fields. */
  datatype Profile = Profile(username: string, firstName: string, lastName: string, isActive: bool, isSuperuser: bool)

  /** An element of the envelope's `response` list. */
  datatype Item =
    | FieldName(name: string)
    | UserItem(user: Schema.UserResponse)
    | TokenItem(tokens: TokenData)
    | ProfileItem(profile: Profile)
    | GroupItem(group: Schema.GroupResponse)

  datatype Response = Response(
    success: bool,
    statusCode: int,
    status: string,
    message: string,
    response: Option<seq<Item>>)

  /** `HTTPStatus(code)` raises `ValueError` for an unregistered code. */
  datatype ConstructionError = UnknownStatus(code: int)

  /**
   * `APIResponse.create`: copies `success`, `status_code` and `message`,
   * puts `data` in `response`, and derives `status` as the reason phrase of
   * the code; an unregistered code is refused.
   */
  function Create(success: bool, statusCode: int, message: string, data: Option<seq<Item>>): (r: Result<Response, ConstructionError>)
    ensures r.Ok? <==> HttpStatus.IsRegistered(statusCode)
    ensures r.Ok? ==> && r.value.success == success && r.value.statusCode == statusCode
                      && r.value.message == message && r.value.response == data
                      && HttpStatus.Phrase(statusCode) == Some(r.value.status)
    ensures r.Err? ==> r.error == UnknownStatus(statusCode)
  {
    match HttpStatus.Phrase(statusCode)
    case Some(phrase) => Ok(Response(success, statusCode, phrase, message, data))
    case None => Err(UnknownStatus(statusCode))
  }

  /** `APIResponse.create` called without `data`: `response` is None. */
  function CreateWithoutData(success: bool, statusCode: int, message: string): (r: Result<Response, ConstructionError>)
    ensures r.Ok? <==> HttpStatus.IsRegistered(statusCode)
    ensures r.Ok? ==> r.value.response == None && r.value.statusCode == statusCode
  {
    Create(success, statusCode, message, None)
  }

  /** The envelope for a code known to be registered, as the backend's own fixed codes are. */
  function Envelope(success: bool, statusCode: int, message: string, data: seq<Item>): (r: Response)
    requires HttpStatus.IsRegistered(statusCode)
    ensures r.success == success && r.statusCode == statusCode && r.message == message
    ensures r.response == Some(data) && HttpStatus.Phrase(statusCode) == Some(r.status)
  {
    Create(success, statusCode, message, Some(data)).value
  }

  /** The envelope's `status` for the example `201`. */
  lemma CreatedExample(message: string, data: seq<Item>)
    ensures Create(true, HttpStatus.Created, message, Some(data)).Ok?
    ensures Create(true, HttpStatus.Created, message, Some(data)).value.status == "Created"
  {
  }
}
