/**
 * The application services: registration, login, login-status check,
 * current-user lookup and group creation, each a short chain of ordered
 * guards ending in at most one insertion.
 */
module Service {
  import opened Wrappers
  import Bcrypt
  import Jwt
  import Models
  import Schema
  import HttpStatus
  import Repository
  import Security
  import A = ApiResponse

  /** Why a service call raised `Exception("Service error : ...")`. */
  datatype Fault =
    | RepositoryFault(repoError: Repository.RepoError)
    | ResponseInvalid(invalid: Schema.ValidationError)
    | HasherFault(hashError: Bcrypt.HashError)

  /** A service call either answers with an envelope or raises. */
  datatype Outcome = Reply(resp: A.Response) | Raised(fault: Fault)

  /**
   * The columns registration stores: the body as given, with the password
   * replaced by its hash. The store accepts them exactly when the body's
   * strings fit the `String(50)` columns.
   */
  function RegistrationColumns(payload: Schema.CreateUser, hash: Bcrypt.Hash): (cols: Models.UserColumns)
    ensures cols.password == hash && cols.username == payload.username
    ensures cols.firstname == payload.firstname && cols.lastname == payload.lastname
    ensures cols.isSuperuser == payload.isSuperuser && cols.isActive == payload.isActive
    ensures cols.createdBy == payload.createdBy && cols.lastModifiedBy == payload.lastModifiedBy
    ensures Models.FitsUserColumns(cols) <==>
      && |payload.username| <= 50 && |payload.firstname| <= 50 && |payload.lastname| <= 50
      && (payload.createdBy.Some? ==> |payload.createdBy.value| <= 50)
      && (payload.lastModifiedBy.Some? ==> |payload.lastModifiedBy.value| <= 50)
  {
    Models.UserColumns(payload.username, payload.firstname, payload.lastname, hash,
                       payload.isSuperuser, payload.isActive, payload.createdBy, payload.lastModifiedBy)
  }

  /** The fields of the body that clash with the existing record: `username` when it is the same, else none. */
  function ConflictFields(existing: Schema.UserResponse, payload: Schema.CreateUser): (r: seq<A.Item>)
    ensures r == [A.FieldName("username")] <==> existing.username == payload.username
    ensures existing.username != payload.username ==> r == []
  {
    if existing.username == payload.username then [A.FieldName("username")] else []
  }

  /**
   * The token data of a login: an access and a refresh token that both
   * verify as `username`, the access token for the configured lifetime and
   * the refresh token for seven days, and the type "bearer".
   */
  function LoginTokens(sec: Security.AuthSecurity, username: string, now: int): (t: A.TokenData)
    ensures t.tokenType == "bearer"
    ensures forall at :: sec.VerifyToken(t.accessToken, at)
                         == if at < now + sec.AccessTokenLifetime() then Security.VerifyResult(true, Some(username))
                            else Security.VerifyResult(false, None)
    ensures forall at :: sec.VerifyToken(t.refreshToken, at)
                         == if at < now + 7 * 86400 then Security.VerifyResult(true, Some(username))
                            else Security.VerifyResult(false, None)
  {
    A.TokenData(sec.CreateAccessToken(Security.SubjectClaims(username), now),
                sec.CreateRefreshToken(Security.SubjectClaims(username), now),
                "bearer")
  }

  /** The profile the login-status check answers with. */
  function ProfileOf(u: Models.User): A.Profile {
    A.Profile(u.username, u.firstname, u.lastname, u.isActive, u.isSuperuser)
  }

  /**
   * Two users have the same profile exactly when they agree on username,
   * names and the two flags: the profile shows nothing of the id, the
   * password hash or the audit fields.
   */
  lemma ProfileShowsExactlyFiveFields(u: Models.User, v: Models.User)
    ensures ProfileOf(u) == ProfileOf(v) <==>
      && u.username == v.username && u.firstname == v.firstname && u.lastname == v.lastname
      && u.isActive == v.isActive && u.isSuperuser == v.isSuperuser
  {
  }

  class UserService {
    const repo: Repository.UserRepository
    const security: Security.AuthSecurity

    ghost predicate Valid()
      reads repo
    {
      repo.Valid()
    }

    constructor (repo: Repository.UserRepository, security: Security.AuthSecurity)
      ensures this.repo == repo && this.security == security
    {
      this.repo := repo;
      this.security := security;
    }

    /**
     * `UserService.create`: a taken username answers 409 with the clashing
     * field and stores nothing; otherwise the password is hashed and one
     * record is stored, whose password is that hash and whose other fields
     * come from the body, and the answer is 201 with its public view. A
     * password passlib refuses, or a record the database refuses, raises and
     * stores nothing. The request schema bounds the username to 30
     * characters; a longer one (which only a caller that skips validation
     * can pass) makes the public view fail: of the existing record when the
     * name is taken, of the new record otherwise.
     */
    method Create(payload: Schema.CreateUser, salt: nat) returns (out: Outcome)
      requires Valid()
      modifies repo
      ensures Valid()
      ensures old(repo.HasUsername(payload.username)) && |payload.username| <= Schema.UsernameMaxLength ==>
        out == Reply(A.Envelope(false, 409, "The following fields data already exist.", [A.FieldName("username")]))
      ensures old(repo.HasUsername(payload.username)) && |payload.username| > Schema.UsernameMaxLength ==>
        out.Raised? && out.fault.RepositoryFault?
      ensures old(repo.HasUsername(payload.username)) ==> repo.users == old(repo.users) && repo.nextId == old(repo.nextId)
      ensures !(out.Reply? && out.resp.success) && !(out.Raised? && out.fault.ResponseInvalid?) ==>
        repo.users == old(repo.users) && repo.nextId == old(repo.nextId)
      ensures var h := Bcrypt.HashPassword(payload.password, salt);
        && (!old(repo.HasUsername(payload.username)) && h.Err? ==> out == Raised(HasherFault(h.error)))
        && (out.Reply? && out.resp.success <==>
              && !old(repo.HasUsername(payload.username)) && h.Ok?
              && Models.FitsUserColumns(RegistrationColumns(payload, h.value))
              && |payload.username| <= Schema.UsernameMaxLength)
        && (!old(repo.HasUsername(payload.username)) && h.Ok? && !Models.FitsUserColumns(RegistrationColumns(payload, h.value)) ==>
              out.Raised? && out.fault.RepositoryFault?)
        && (&& !old(repo.HasUsername(payload.username)) && h.Ok?
            && Models.FitsUserColumns(RegistrationColumns(payload, h.value))
            && |payload.username| > Schema.UsernameMaxLength ==>
              out.Raised? && out.fault.ResponseInvalid?)
      ensures out.Raised? && out.fault.ResponseInvalid? ==> |payload.username| > Schema.UsernameMaxLength
      ensures (out.Reply? && out.resp.success) || (out.Raised? && out.fault.ResponseInvalid?) ==>
        && Bcrypt.HashPassword(payload.password, salt).Ok?
        && repo.nextId == old(repo.nextId) + 1
        && |repo.users| == |old(repo.users)| + 1
        && repo.users[..|old(repo.users)|] == old(repo.users)
        && var u := repo.users[|old(repo.users)|];
           && u == Models.UserRow(RegistrationColumns(payload, Bcrypt.HashPassword(payload.password, salt).value), old(repo.nextId))
           && u.id == old(repo.nextId)
           && u.password == Bcrypt.HashPassword(payload.password, salt).value
           && u.username == payload.username && u.firstname == payload.firstname && u.lastname == payload.lastname
           && (out.Reply? ==>
                 && Schema.ValidateUserResponse(u).Ok?
                 && out.resp == A.Envelope(true, 201, "User Account Created Successfully",
                                           [A.UserItem(Schema.ValidateUserResponse(u).value)]))
    {
      var existing := repo.IsDetailsOccured(payload.username);
      if existing.Err? {
        return Raised(RepositoryFault(existing.error));
      }
      if existing.value.Some? {
        return Reply(A.Envelope(false, HttpStatus.Conflict, "The following fields data already exist.",
                                ConflictFields(existing.value.value, payload)));
      }
      var hashed := security.GetHashedPassword(payload.password, salt);
      if hashed.Err? {
        return Raised(HasherFault(hashed.error));
      }
      var request := repo.Create(RegistrationColumns(payload, hashed.value));
      if request.Err? {
        return Raised(RepositoryFault(request.error));
      }
      match Schema.ValidateUserResponse(request.value)
      case Err(e) =>
        out := Raised(ResponseInvalid(e));
      case Ok(view) =>
        out := Reply(A.Envelope(true, HttpStatus.Created, "User Account Created Successfully", [A.UserItem(view)]));
    }

    /**
     * `UserService.login`: existence is checked before the password. An
     * unknown name answers 404 whatever the password; for a known name a
     * password passlib refuses raises, a wrong one answers 401, both without
     * data; otherwise 200 with an access and a refresh token for the user.
     */
    function Login(payload: Schema.UserLogin, now: int): (out: Outcome)
      reads repo
      requires Valid()
      ensures out.Raised? <==> repo.HasUsername(payload.username) && !Bcrypt.Acceptable(payload.password)
      ensures out.Raised? ==> out.fault.HasherFault? && Some(out.fault.hashError) == Bcrypt.SecretError(payload.password)
      ensures !repo.HasUsername(payload.username) ==> out == Reply(A.Envelope(false, 404, "User Not Found", []))
      ensures out.Reply? && out.resp.success <==>
        exists u :: u in repo.users && u.username == payload.username
                    && Bcrypt.Verify(payload.password, u.password) == Ok(true)
      ensures repo.HasUsername(payload.username) && out.Reply? && !out.resp.success ==>
        out.resp == A.Envelope(false, 401, "Invalid Password", [])
      ensures out.Reply? && out.resp.success ==>
        out.resp == A.Envelope(true, 200, "Login Successfully", [A.TokenItem(LoginTokens(security, payload.username, now))])
    {
      match repo.GetByUsername(payload.username)
      case None => Reply(A.Envelope(false, HttpStatus.NotFound, "User Not Found", []))
      case Some(user) =>
        match security.VerifyHashedPassword(payload.password, user.password)
        case Err(e) => Raised(HasherFault(e))
        case Ok(valid) =>
          if !valid then
            Reply(A.Envelope(false, HttpStatus.Unauthorized, "Invalid Password", []))
          else
            Reply(A.Envelope(true, HttpStatus.OK, "Login Successfully",
                             [A.TokenItem(LoginTokens(security, user.username, now))]))
    }

    /**
     * `UserService.check_login_status`: an invalid token answers 401, a valid
     * token whose user is gone 404, otherwise 200 with exactly the profile.
     */
    function CheckLoginStatus(token: Jwt.Token, now: int): (out: Outcome)
      reads repo
      requires Valid()
      ensures out.Reply?
      ensures !security.VerifyToken(token, now).valid ==>
        out.resp == A.Envelope(false, 401, "Invalid or expired token", [])
      ensures security.VerifyToken(token, now).valid && !repo.HasUsername(security.VerifyToken(token, now).username.value) ==>
        out.resp == A.Envelope(false, 404, "User not found", [])
      ensures out.resp.success <==>
        security.VerifyToken(token, now).valid && repo.HasUsername(security.VerifyToken(token, now).username.value)
      ensures out.resp.success ==>
        exists u :: && u in repo.users && Some(u.username) == security.VerifyToken(token, now).username
                    && out.resp == A.Envelope(true, 200, "User is logged in", [A.ProfileItem(ProfileOf(u))])
    {
      var claim := security.VerifyToken(token, now);
      if !claim.valid then
        Reply(A.Envelope(false, HttpStatus.Unauthorized, "Invalid or expired token", []))
      else match repo.GetByUsername(claim.username.value)
        case None => Reply(A.Envelope(false, HttpStatus.NotFound, "User not found", []))
        case Some(user) =>
          Reply(A.Envelope(true, HttpStatus.OK, "User is logged in", [A.ProfileItem(ProfileOf(user))]))
    }

    /** `UserService.get_current_user`: the stored user of that exact name, or None. */
    function GetCurrentUser(username: string): (r: Option<Models.User>)
      reads repo
      requires Valid()
      ensures r.Some? <==> repo.HasUsername(username)
      ensures r.Some? ==> r.value in repo.users && r.value.username == username
    {
      repo.GetByUsername(username)
    }
  }

  /** The group body with both audit fields replaced by the acting user's name. */
  function Stamp(payload: Schema.CreateGroup, username: string): (p: Schema.CreateGroup)
    ensures p.createdBy == Some(username) && p.lastModifiedBy == Some(username)
    ensures p.name == payload.name && p.isActive == payload.isActive
  {
    var p := payload.(createdBy := Some(username));
    p.(lastModifiedBy := Some(username))
  }

  /**
   * The mapping the intended `Groups(**data)` receives: the body's fields as
   * columns. The store accepts it exactly when the name fits and both audit
   * fields are given and fit.
   */
  function GroupColumnsOf(p: Schema.CreateGroup): (cols: Models.GroupColumns)
    ensures cols.name == p.name && cols.isActive == p.isActive
    ensures cols.createdBy == p.createdBy && cols.lastModifiedBy == p.lastModifiedBy
    ensures Models.GroupColumnFault(cols).None? <==>
      && |p.name| <= 50
      && p.createdBy.Some? && |p.createdBy.value| <= 50
      && p.lastModifiedBy.Some? && |p.lastModifiedBy.value| <= 50
  {
    Models.GroupColumns(p.name, p.isActive, p.createdBy, p.lastModifiedBy)
  }

  class GroupsService {
    const repo: Repository.GroupsRepository
    const user: Models.User

    constructor (user: Models.User, repo: Repository.GroupsRepository)
      ensures this.user == user && this.repo == repo
    {
      this.user := user;
      this.repo := repo;
    }

    /**
     * `GroupsService.create` as written: the stamped body is handed to
     * `GroupsRepository.create`, which always raises, so the call always
     * raises a repository error and stores nothing. The projection and the
     * 201 answer that follow it in the source are never reached.
     */
    method Create(payload: Schema.CreateGroup) returns (out: Outcome)
      ensures out == Raised(RepositoryFault(Repository.NotAMapping))
    {
      var stamped := Stamp(payload, user.username);
      var groups := repo.Create(stamped);
      out := Raised(RepositoryFault(groups.error));
    }

    /**
     * The group creation the source evidently intends: the stamped body's
     * columns are inserted and the stored row is projected with
     * `from_attributes` on. The stored group has the body's name and active
     * flag and the acting user as creator and last modifier, whatever the
     * body said, and the answer is 201 with its public view. A group the
     * database refuses raises and stores nothing; a stored name over the
     * schema's 30 characters makes the public view fail after the insert.
     */
    method CreateIntended(payload: Schema.CreateGroup) returns (out: Outcome)
      requires repo.Valid()
      modifies repo
      ensures repo.Valid()
      ensures out.Reply? <==> && !old(repo.HasName(payload.name)) && |user.username| <= Models.AuditWidth
                              && |payload.name| <= Schema.GroupNameMaxLength
      ensures old(repo.HasName(payload.name)) || |user.username| > Models.AuditWidth
              || |payload.name| > Models.GroupNameWidth ==>
        out.Raised? && out.fault.RepositoryFault?
      ensures && !old(repo.HasName(payload.name)) && |user.username| <= Models.AuditWidth
              && Schema.GroupNameMaxLength < |payload.name| <= Models.GroupNameWidth ==>
        out.Raised? && out.fault.ResponseInvalid?
      ensures out.Raised? && out.fault.RepositoryFault? ==> repo.groups == old(repo.groups) && repo.nextId == old(repo.nextId)
      ensures out.Raised? && out.fault.ResponseInvalid? ==> |payload.name| > Schema.GroupNameMaxLength
      ensures out.Reply? || (out.Raised? && out.fault.ResponseInvalid?) ==>
        && repo.nextId == old(repo.nextId) + 1
        && |repo.groups| == |old(repo.groups)| + 1
        && repo.groups[..|old(repo.groups)|] == old(repo.groups)
        && var g := repo.groups[|old(repo.groups)|];
           && g.id == old(repo.nextId) && g.name == payload.name
           && (g.isActive <==> payload.isActive != Some(false))
           && g.createdBy == user.username && g.lastModifiedBy == user.username
           && (out.Reply? ==>
                 && Schema.ValidateGroupResponse(g, true).Ok?
                 && out.resp == A.Envelope(true, 201, "User Group Created Successfully",
                                           [A.GroupItem(Schema.ValidateGroupResponse(g, true).value)]))
    {
      var stamped := Stamp(payload, user.username);
      var groups := repo.Insert(GroupColumnsOf(stamped));
      if groups.Err? {
        return Raised(RepositoryFault(groups.error));
      }
      match Schema.ValidateGroupResponse(groups.value, true)
      case Err(e) =>
        out := Raised(ResponseInvalid(e));
      case Ok(view) =>
        out := Reply(A.Envelope(true, HttpStatus.Created, "User Group Created Successfully", [A.GroupItem(view)]));
    }
  }

  /** For an unknown name, login answers the same whatever password is given: the password is never checked. */
  lemma LoginUnknownUserIgnoresPassword(svc: UserService, p1: Schema.UserLogin, p2: Schema.UserLogin, now: int)
    requires svc.Valid()
    requires p1.username == p2.username && !svc.repo.HasUsername(p1.username)
    ensures svc.Login(p1, now) == svc.Login(p2, now)
  {
  }

  /**
   * Both tokens of a successful login verify as the user who logged in: the
   * access token during its configured lifetime, the refresh token for
   * seven days.
   */
  lemma LoginTokensIdentifyUser(svc: UserService, payload: Schema.UserLogin, now: int, at: int)
    requires svc.Valid()
    requires svc.Login(payload, now).Reply? && svc.Login(payload, now).resp.success
    ensures var tokens := LoginTokens(svc.security, payload.username, now);
      && svc.Login(payload, now).resp.response == Some([A.TokenItem(tokens)])
      && tokens.tokenType == "bearer"
      && (at < now + svc.security.AccessTokenLifetime() ==>
            svc.security.VerifyToken(tokens.accessToken, at) == Security.VerifyResult(true, Some(payload.username)))
      && (at < now + 7 * 86400 ==>
            svc.security.VerifyToken(tokens.refreshToken, at) == Security.VerifyResult(true, Some(payload.username)))
  {
  }

  /**
   * While the store is unchanged, the access token of a successful login
   * passes the login-status check until it expires, answering with that
   * user's profile.
   */
  lemma LoginThenStatus(svc: UserService, payload: Schema.UserLogin, now: int, at: int)
    requires svc.Valid()
    requires svc.Login(payload, now).Reply? && svc.Login(payload, now).resp.success
    requires at < now + svc.security.AccessTokenLifetime()
    ensures var token := LoginTokens(svc.security, payload.username, now).accessToken;
      && svc.CheckLoginStatus(token, at).resp.success
      && svc.CheckLoginStatus(token, at).resp.response
         == Some([A.ProfileItem(ProfileOf(svc.GetCurrentUser(payload.username).value))])
  {
  }

  /** The gate lets the access token of a successful login through, as the user who logged in. */
  lemma LoginThenGate(svc: UserService, payload: Schema.UserLogin, now: int, at: int)
    requires svc.Valid()
    requires svc.Login(payload, now).Reply? && svc.Login(payload, now).resp.success
    requires at < now + svc.security.AccessTokenLifetime()
    ensures var token := LoginTokens(svc.security, payload.username, now).accessToken;
      && svc.security.GetUserLoginIn(token, svc.repo, at).Authenticated?
      && svc.security.GetUserLoginIn(token, svc.repo, at).user == svc.GetCurrentUser(payload.username).value
  {
  }

  /** A token that does not verify answers 401 whatever the store holds. */
  lemma CheckStatusIgnoresStoreOnBadToken(s1: UserService, s2: UserService, token: Jwt.Token, now: int)
    requires s1.Valid() && s2.Valid() && s1.security == s2.security
    requires !s1.security.VerifyToken(token, now).valid
    ensures s1.CheckLoginStatus(token, now) == s2.CheckLoginStatus(token, now)
  {
  }

  /** Whatever audit fields the caller sent, the stamped body is the same. */
  lemma StampOverridesCaller(p1: Schema.CreateGroup, p2: Schema.CreateGroup, username: string)
    requires p1.name == p2.name && p1.isActive == p2.isActive
    ensures Stamp(p1, username) == Stamp(p2, username)
  {
  }

  /**
   * Register "alice" twice against an empty store: the first call answers
   * 201 with her public view, the second 409, and one record is stored.
   */
  method RegisterTwiceScenario(salt: nat) returns (repo: Repository.UserRepository, first: Outcome, second: Outcome)
    ensures repo.Valid() && |repo.users| == 1 && repo.users[0].username == "alice"
    ensures repo.users[0].firstname == "A" && repo.users[0].lastname == "L"
    ensures repo.users[0].isActive && !repo.users[0].isSuperuser && repo.users[0].createdBy == "system"
    ensures Bcrypt.Verify("password123", repo.users[0].password) == Ok(true)
    ensures first.Reply? && first.resp.success && first.resp.statusCode == 201
    ensures first.resp.response.Some? && |first.resp.response.value| == 1
    ensures first.resp.response.value[0].UserItem? && first.resp.response.value[0].user.username == "alice"
    ensures second == Reply(A.Envelope(false, 409, "The following fields data already exist.", [A.FieldName("username")]))
  {
    repo := new Repository.UserRepository();
    var svc := new UserService(repo, Security.AuthSecurity("key", Security.DefaultAlgorithm, Security.DefaultAccessTokenExpireMinutes));
    var body := Schema.NewCreateUser("alice", "A", "L", "password123");
    assert Bcrypt.Acceptable(body.password);
    assert Models.FitsUserColumns(RegistrationColumns(body, Bcrypt.HashPassword(body.password, salt).value));
    assert !repo.HasUsername("alice");
    first := svc.Create(body, salt);
    assert repo.HasUsername("alice");
    second := svc.Create(body, salt + 1);
  }

  /**
   * Then log in as "alice" and check the login status with the access
   * token: both answer 200, the second with her profile.
   */
  method LoginScenario(salt: nat, now: int) returns (login: Outcome, status: Outcome)
    ensures login.Reply? && login.resp.success && login.resp.statusCode == 200
    ensures status.Reply? && status.resp.statusCode == 200
    ensures status.resp.response == Some([A.ProfileItem(A.Profile("alice", "A", "L", true, false))])
  {
    var repo, _, _ := RegisterTwiceScenario(salt);
    var sec := Security.AuthSecurity("key", Security.DefaultAlgorithm, Security.DefaultAccessTokenExpireMinutes);
    var svc := new UserService(repo, sec);
    var credentials := Schema.UserLogin("alice", "password123");
    assert repo.users[0] in repo.users;
    login := svc.Login(credentials, now);
    assert sec.AccessTokenLifetime() == 1800;
    LoginThenStatus(svc, credentials, now, now);
    assert svc.GetCurrentUser("alice") == Some(repo.users[0]);
    status := svc.CheckLoginStatus(LoginTokens(sec, "alice", now).accessToken, now);
  }

  /**
   * An authenticated user creates the group "admins" with the default body:
   * the code as written raises a repository error, while the intended
   * creation answers 201 with the stamped group under id 1.
   */
  method GroupCreateScenario(user: Models.User) returns (asWritten: Outcome, intended: Outcome)
    requires |user.username| <= Models.AuditWidth
    ensures asWritten.Raised? && asWritten.fault.RepositoryFault?
    ensures intended.Reply? && intended.resp.success && intended.resp.statusCode == 201
    ensures intended.resp.response
         == Some([A.GroupItem(Schema.GroupResponse(1, "admins", Some(true), Some(user.username), Some(user.username)))])
  {
    var repo := new Repository.GroupsRepository(user);
    var svc := new GroupsService(user, repo);
    var body := Schema.NewCreateGroup("admins", "2024-01-01 00:00:00");
    asWritten := svc.Create(body);
    assert !repo.HasName("admins");
    intended := svc.CreateIntended(body);
  }
}
