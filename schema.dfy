/**
 * The request and response schemas: length-bounded string fields with
 * defaults, and the public projections of stored rows, which have no
 * password field.
 */
module Schema {
  import opened Wrappers
  import Models

  const UsernameMaxLength: nat := 30
  const NameMaxLength: nat := 100
  const PasswordMinLength: nat := 8
  const PasswordMaxLength: nat := 300
  const GroupNameMaxLength: nat := 30

  /**
   * Why pydantic refused the input: a field over its bound, or (`model_type`)
   * an input that is neither a dict nor an instance of the schema.
   */
  datatype ValidationError = TooLong(field: string) | ModelType

  /** The registration body. The optional flags and audit fields may be null. */
  datatype CreateUser = CreateUser(
    username: string,
    firstname: string,
    lastname: string,
    password: string,
    isSuperuser: Option<bool>,
    isActive: Option<bool>,
    createdBy: Option<string>,
    lastModifiedBy: Option<string>)

  /** The registration body's field constraints. */
  predicate ValidCreateUser(p: CreateUser) {
    && |p.username| <= UsernameMaxLength
    && |p.firstname| <= NameMaxLength
    && |p.lastname| <= NameMaxLength
    && PasswordMinLength <= |p.password| <= PasswordMaxLength
  }

  /** A registration body that gives only the four required fields. */
  function NewCreateUser(username: string, firstname: string, lastname: string, password: string): (p: CreateUser)
    ensures p.username == username && p.firstname == firstname
    ensures p.lastname == lastname && p.password == password
    ensures p.isSuperuser == Some(false) && p.isActive == Some(true)
    ensures p.createdBy == None && p.lastModifiedBy == None
    ensures ValidCreateUser(p) <==> && |username| <= 30 && |firstname| <= 100 && |lastname| <= 100
                                    && 8 <= |password| <= 300
  {
    CreateUser(username, firstname, lastname, password, Some(false), Some(true), None, None)
  }

  /** The public view of a user: every column except the password hash. */
  datatype UserResponse = UserResponse(
    id: int,
    username: string,
    firstname: string,
    lastname: string,
    isSuperuser: Option<bool>,
    isActive: Option<bool>,
    createdBy: Option<string>,
    lastModifiedBy: Option<string>)

  /**
   * `UserResponseSchema.model_validate(user)`: copies the public columns and
   * fails when a stored string exceeds the response schema's bounds.
   */
  function ValidateUserResponse(u: Models.User): (r: Result<UserResponse, ValidationError>)
    ensures r.Ok? <==> |u.username| <= 30 && |u.firstname| <= 100 && |u.lastname| <= 100
    ensures r.Ok? ==> && r.value.id == u.id && r.value.username == u.username
                      && r.value.firstname == u.firstname && r.value.lastname == u.lastname
                      && r.value.isSuperuser == Some(u.isSuperuser) && r.value.isActive == Some(u.isActive)
                      && r.value.createdBy == Some(u.createdBy)
                      && r.value.lastModifiedBy == Some(u.lastModifiedBy)
  {
    if |u.username| > UsernameMaxLength then Err(TooLong("username"))
    else if |u.firstname| > NameMaxLength then Err(TooLong("firstname"))
    else if |u.lastname| > NameMaxLength then Err(TooLong("lastname"))
    else Ok(UserResponse(u.id, u.username, u.firstname, u.lastname, Some(u.isSuperuser),
                         Some(u.isActive), Some(u.createdBy), Some(u.lastModifiedBy)))
  }

  /** The login body: two strings without any length constraint. */
  datatype UserLogin = UserLogin(username: string, password: string)

  /**
   * The group-creation body. The declared default of `created_by` is the
   * clock reading taken when the schema module is loaded (a datetime in a
   * string-typed field, which the schema never validates); it is the
   * parameter `loadTime` of `NewCreateGroup`.
   */
  datatype CreateGroup = CreateGroup(
    name: string,
    isActive: Option<bool>,
    createdBy: Option<string>,
    lastModifiedBy: Option<string>)

  predicate ValidCreateGroup(p: CreateGroup) {
    |p.name| <= GroupNameMaxLength
  }

  /** A group body that gives only the name. */
  function NewCreateGroup(name: string, loadTime: string): (p: CreateGroup)
    ensures p.name == name && p.isActive == Some(true)
    ensures p.createdBy == Some(loadTime) && p.lastModifiedBy == None
    ensures ValidCreateGroup(p) <==> |name| <= 30
  {
    CreateGroup(name, Some(true), Some(loadTime), None)
  }

  /** The public view of a group. */
  datatype GroupResponse = GroupResponse(
    id: int,
    name: string,
    isActive: Option<bool>,
    createdBy: Option<string>,
    lastModifiedBy: Option<string>)

  /** `GroupsResponseSchema` sets no `model_config`, so pydantic's `from_attributes` is off. */
  const GroupsResponseFromAttributes: bool := false

  /**
   * `GroupsResponseSchema.model_validate(group)` on a stored row, under a
   * `from_attributes` setting. With it off, pydantic accepts only a dict or
   * an instance of the schema and refuses the row whatever it holds; with it
   * on, the columns are copied and the name must fit the schema bound.
   */
  function ValidateGroupResponse(g: Models.Group, fromAttributes: bool): (r: Result<GroupResponse, ValidationError>)
    ensures r.Ok? <==> fromAttributes && |g.name| <= 30
    ensures !fromAttributes ==> r == Err(ModelType)
    ensures r.Ok? ==> && r.value.id == g.id && r.value.name == g.name
                      && r.value.isActive == Some(g.isActive)
                      && r.value.createdBy == Some(g.createdBy)
                      && r.value.lastModifiedBy == Some(g.lastModifiedBy)
  {
    if !fromAttributes then Err(ModelType)
    else if |g.name| > GroupNameMaxLength then Err(TooLong("name"))
    else Ok(GroupResponse(g.id, g.name, Some(g.isActive), Some(g.createdBy), Some(g.lastModifiedBy)))
  }

  /** As the schema is declared, no stored group ever has a public view. */
  lemma GroupRowsRefused(g: Models.Group)
    ensures ValidateGroupResponse(g, GroupsResponseFromAttributes) == Err(ModelType)
  {
  }
}
