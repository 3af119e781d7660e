/**
 * The repositories: the `auth_user` and `auth_groups` tables behind a
 * database session. Each table is a sequence of rows in insertion order and
 * an autoincrement counter; lookups are exact matches (case-sensitive, as
 * under a binary collation) and only `Create` and `Insert` change a table.
 */
module Repository {
  import opened Wrappers
  import Models
  import Schema

  /** `Exception("Repository error ...")`, keeping the cause that the source folds into the message. */
  datatype RepoError =
    | StoreRefused(fault: Models.StoreFault)
    | InvalidRow(error: Schema.ValidationError)
    | NotAMapping

  class UserRepository {
    var users: seq<Models.User>
    var nextId: int

    ghost predicate Valid()
      reads this
    {
      Models.ValidUserTable(users, nextId)
    }

    constructor ()
      ensures Valid() && users == [] && nextId == 1
    {
      users := [];
      nextId := 1;
    }

    /** Some stored user is named exactly `username`. */
    predicate HasUsername(username: string)
      reads this
    {
      Models.FindUser(users, username) < |users|
    }

    /**
     * `UserRepository.create`: stores one row built from every column of
     * `data` under the next id and returns it, or leaves the table as it was
     * when the database refuses the row (a column too wide, or a username
     * that is already taken).
     */
    method Create(data: Models.UserColumns) returns (r: Result<Models.User, RepoError>)
      requires Valid()
      modifies this
      ensures Valid()
      ensures r.Ok? <==> Models.FitsUserColumns(data) && !old(HasUsername(data.username))
      ensures r.Ok? ==> && r.value == Models.UserRow(data, old(nextId))
                        && users == old(users) + [r.value]
                        && nextId == old(nextId) + 1
      ensures r.Err? ==> users == old(users) && nextId == old(nextId) && r.error.StoreRefused?
      ensures old(HasUsername(data.username)) ==> r.Err?
    {
      var fault := Models.UserColumnFault(data);
      if fault.Some? {
        return Err(StoreRefused(fault.value));
      }
      if Models.FindUser(users, data.username) < |users| {
        return Err(StoreRefused(Models.UniqueViolation("username")));
      }
      var row := Models.UserRow(data, nextId);
      Models.AppendUserKeepsTable(users, nextId, row);
      users := users + [row];
      nextId := nextId + 1;
      r := Ok(row);
    }

    /**
     * `UserRepository.get_by_username`: the one user named exactly
     * `username`, or None. The table invariant makes the match unique, so
     * `scalar_one_or_none` never meets two rows.
     */
    function GetByUsername(username: string): (r: Option<Models.User>)
      reads this
      requires Valid()
      ensures r.Some? <==> exists i :: 0 <= i < |users| && users[i].username == username
      ensures r.Some? ==> r.value in users && r.value.username == username
      ensures r.Some? ==> forall u :: u in users && u.username == username ==> u == r.value
      ensures r.Some? <==> HasUsername(username)
    {
      var i := Models.FindUser(users, username);
      if i < |users| then Some(users[i]) else None
    }

    /**
     * `UserRepository.is_details_occured`: the first user named exactly
     * `username`, projected to the public schema (no password), or None; the
     * projection failing is a repository error.
     */
    function IsDetailsOccured(username: string): (r: Result<Option<Schema.UserResponse>, RepoError>)
      reads this
      ensures r == Ok(None) <==> !HasUsername(username)
      ensures r.Ok? && r.value.Some? ==>
        exists i :: && 0 <= i < |users| && users[i].username == username
                    && (forall j :: 0 <= j < i ==> users[j].username != username)
                    && Schema.ValidateUserResponse(users[i]) == Ok(r.value.value)
      ensures r.Err? ==>
        exists i :: && 0 <= i < |users| && users[i].username == username
                    && (forall j :: 0 <= j < i ==> users[j].username != username)
                    && Schema.ValidateUserResponse(users[i]).Err?
    {
      var i := Models.FindUser(users, username);
      if i == |users| then Ok(None)
      else match Schema.ValidateUserResponse(users[i])
        case Ok(view) => Ok(Some(view))
        case Err(e) => Err(InvalidRow(e))
    }
  }

  class GroupsRepository {
    /** The acting user the repository is opened for. */
    const user: Models.User
    var groups: seq<Models.Group>
    var nextId: int

    ghost predicate Valid()
      reads this
    {
      Models.ValidGroupTable(groups, nextId)
    }

    constructor (user: Models.User)
      ensures Valid() && this.user == user && groups == [] && nextId == 1
    {
      this.user := user;
      groups := [];
      nextId := 1;
    }

    predicate HasName(name: string)
      reads this
    {
      Models.FindGroup(groups, name) < |groups|
    }

    /**
     * `GroupsRepository.create` as written: it is handed the request schema
     * object and builds the row with `Groups(**data)`. A pydantic model is
     * not a mapping, so the call raises `TypeError` before anything is added
     * to the session; the rollback leaves the table as it was.
     */
    method Create(data: Schema.CreateGroup) returns (r: Result<Models.Group, RepoError>)
      ensures r == Err(NotAMapping)
    {
      r := Err(NotAMapping);
    }

    /**
     * The insert `GroupsRepository.create` evidently intends, given the
     * body's columns as a mapping: stores one row built from `data` under
     * the next id, or rolls back and fails when the database refuses it (a
     * duplicate name, a missing or too wide column).
     */
    method Insert(data: Models.GroupColumns) returns (r: Result<Models.Group, RepoError>)
      requires Valid()
      modifies this
      ensures Valid()
      ensures r.Ok? <==> Models.GroupColumnFault(data).None? && !old(HasName(data.name))
      ensures r.Ok? ==> && Models.GroupColumnFault(data).None?
                        && r.value == Models.GroupRow(data, old(nextId))
                        && groups == old(groups) + [r.value]
                        && nextId == old(nextId) + 1
      ensures r.Err? ==> groups == old(groups) && nextId == old(nextId) && r.error.StoreRefused?
    {
      var fault := Models.GroupColumnFault(data);
      if fault.Some? {
        return Err(StoreRefused(fault.value));
      }
      if Models.FindGroup(groups, data.name) < |groups| {
        return Err(StoreRefused(Models.UniqueViolation("name")));
      }
      var row := Models.GroupRow(data, nextId);
      Models.AppendGroupKeepsTable(groups, nextId, row);
      groups := groups + [row];
      nextId := nextId + 1;
      r := Ok(row);
    }
  }
}
