/**
 * The persistent entities: the `auth_user` and `auth_groups` tables, their
 * column defaults, width limits, null constraints and uniqueness constraints.
 */
module Models {
  import opened Wrappers
  import Bcrypt

  /** `String(50)` columns. */
  const UsernameWidth: nat := 50
  const NameWidth: nat := 50
  const AuditWidth: nat := 50
  const GroupNameWidth: nat := 50

  /** Column defaults. */
  const DefaultUserIsActive: bool := true
  const DefaultUserIsSuperuser: bool := false
  const DefaultAuditor: string := "system"
  const DefaultGroupIsActive: bool := true

  /** A stored user. `password` holds the bcrypt hash, never the plain text. */
  datatype User = User(
    id: int,
    username: string,
    firstname: string,
    lastname: string,
    password: Bcrypt.Hash,
    isActive: bool,
    isSuperuser: bool,
    createdBy: string,
    lastModifiedBy: string)

  /**
   * The keyword arguments of `User(**data)`. `None` is an attribute left
   * unset: the ORM leaves it out of the INSERT, so the column default applies.
   */
  datatype UserColumns = UserColumns(
    username: string,
    firstname: string,
    lastname: string,
    password: Bcrypt.Hash,
    isSuperuser: Option<bool>,
    isActive: Option<bool>,
    createdBy: Option<string>,
    lastModifiedBy: Option<string>)

  /** A stored group. */
  datatype Group = Group(
    id: int,
    name: string,
    isActive: bool,
    createdBy: string,
    lastModifiedBy: string)

  /** The keyword arguments of `Groups(**data)`. */
  datatype GroupColumns = GroupColumns(
    name: string,
    isActive: Option<bool>,
    createdBy: Option<string>,
    lastModifiedBy: Option<string>)

  /** Why the database refuses an INSERT. */
  datatype StoreFault =
    | UniqueViolation(column: string)
    | NotNullViolation(column: string)
    | ValueTooLong(column: string)

  predicate FitsOptional(s: Option<string>, width: nat) {
    s.Some? ==> |s.value| <= width
  }

  /** The user columns are within their declared widths. */
  predicate FitsUserColumns(cols: UserColumns) {
    && |cols.username| <= UsernameWidth
    && |cols.firstname| <= NameWidth
    && |cols.lastname| <= NameWidth
    && FitsOptional(cols.createdBy, AuditWidth)
    && FitsOptional(cols.lastModifiedBy, AuditWidth)
  }

  /** The first column (in declaration order) whose value the database refuses, if any. */
  function UserColumnFault(cols: UserColumns): (f: Option<StoreFault>)
    ensures f.None? <==> FitsUserColumns(cols)
    ensures f.Some? ==> f.value.ValueTooLong?
  {
    if |cols.username| > UsernameWidth then Some(ValueTooLong("username"))
    else if |cols.firstname| > NameWidth then Some(ValueTooLong("firstname"))
    else if |cols.lastname| > NameWidth then Some(ValueTooLong("lastname"))
    else if !FitsOptional(cols.createdBy, AuditWidth) then Some(ValueTooLong("created_by"))
    else if !FitsOptional(cols.lastModifiedBy, AuditWidth) then Some(ValueTooLong("last_modified_by"))
    else None
  }

  /**
   * The row the database stores for `cols` under primary key `id`: the given
   * columns, and the column defaults for the ones left unset.
   */
  function UserRow(cols: UserColumns, id: int): (u: User)
    ensures u.id == id && u.username == cols.username && u.password == cols.password
    ensures u.firstname == cols.firstname && u.lastname == cols.lastname
    ensures u.isActive <==> cols.isActive != Some(false)
    ensures u.isSuperuser <==> cols.isSuperuser == Some(true)
    ensures u.createdBy == if cols.createdBy.Some? then cols.createdBy.value else "system"
    ensures u.lastModifiedBy == if cols.lastModifiedBy.Some? then cols.lastModifiedBy.value else "system"
  {
    User(id, cols.username, cols.firstname, cols.lastname, cols.password,
         cols.isActive.GetOr(DefaultUserIsActive),
         cols.isSuperuser.GetOr(DefaultUserIsSuperuser),
         cols.createdBy.GetOr(DefaultAuditor),
         cols.lastModifiedBy.GetOr(DefaultAuditor))
  }

  /** A stored user row is within the column widths. */
  predicate FitsUserRow(u: User) {
    && |u.username| <= UsernameWidth
    && |u.firstname| <= NameWidth
    && |u.lastname| <= NameWidth
    && |u.createdBy| <= AuditWidth
    && |u.lastModifiedBy| <= AuditWidth
  }

  /** The group columns the database accepts: widths, and the audit columns are NOT NULL without default. */
  function GroupColumnFault(cols: GroupColumns): (f: Option<StoreFault>)
    ensures f.None? <==> && |cols.name| <= GroupNameWidth
                         && cols.createdBy.Some? && |cols.createdBy.value| <= AuditWidth
                         && cols.lastModifiedBy.Some? && |cols.lastModifiedBy.value| <= AuditWidth
    ensures cols.createdBy.None? ==> f.Some?
  {
    if |cols.name| > GroupNameWidth then Some(ValueTooLong("name"))
    else if cols.createdBy.None? then Some(NotNullViolation("created_by"))
    else if |cols.createdBy.value| > AuditWidth then Some(ValueTooLong("created_by"))
    else if cols.lastModifiedBy.None? then Some(NotNullViolation("last_modified_by"))
    else if |cols.lastModifiedBy.value| > AuditWidth then Some(ValueTooLong("last_modified_by"))
    else None
  }

  /** The group row stored for `cols` under `id`; only `is_active` has a default. */
  function GroupRow(cols: GroupColumns, id: int): (g: Group)
    requires GroupColumnFault(cols).None?
    ensures g.id == id && g.name == cols.name
    ensures g.isActive <==> cols.isActive != Some(false)
    ensures Some(g.createdBy) == cols.createdBy && Some(g.lastModifiedBy) == cols.lastModifiedBy
  {
    Group(id, cols.name, cols.isActive.GetOr(DefaultGroupIsActive),
          cols.createdBy.value, cols.lastModifiedBy.value)
  }

  predicate FitsGroupRow(g: Group) {
    && |g.name| <= GroupNameWidth
    && |g.createdBy| <= AuditWidth
    && |g.lastModifiedBy| <= AuditWidth
  }

  /** The `auth_user` table invariant: unique usernames, increasing autoincrement ids below `nextId`, rows within widths. */
  ghost predicate ValidUserTable(users: seq<User>, nextId: int)
    ensures ValidUserTable(users, nextId) ==>
      forall i, j :: 0 <= i < |users| && 0 <= j < |users| && i != j ==>
        users[i].username != users[j].username && users[i].id != users[j].id
  {
    && (forall i, j :: 0 <= i < j < |users| ==> users[i].username != users[j].username)
    && (forall i, j :: 0 <= i < j < |users| ==> users[i].id < users[j].id)
    && (forall i :: 0 <= i < |users| ==> 1 <= users[i].id < nextId && FitsUserRow(users[i]))
    && 1 <= nextId
  }

  /** The `auth_groups` table invariant: unique names, increasing ids below `nextId`, rows within widths. */
  ghost predicate ValidGroupTable(groups: seq<Group>, nextId: int)
    ensures ValidGroupTable(groups, nextId) ==>
      forall i, j :: 0 <= i < |groups| && 0 <= j < |groups| && i != j ==>
        groups[i].name != groups[j].name && groups[i].id != groups[j].id
  {
    && (forall i, j :: 0 <= i < j < |groups| ==> groups[i].name != groups[j].name)
    && (forall i, j :: 0 <= i < j < |groups| ==> groups[i].id < groups[j].id)
    && (forall i :: 0 <= i < |groups| ==> 1 <= groups[i].id < nextId && FitsGroupRow(groups[i]))
    && 1 <= nextId
  }

  /**
   * The position of the first row whose key equals `k` exactly (an SQL
   * equality on a string column, case-sensitive under the binary collation
   * the model assumes), or `|rows|` when there is none.
   */
  function FirstMatch<T>(rows: seq<T>, key: T -> string, k: string): (i: nat)
    ensures i <= |rows|
    ensures forall j :: 0 <= j < i ==> key(rows[j]) != k
    ensures i < |rows| ==> key(rows[i]) == k
  {
    if rows == [] then 0
    else if key(rows[0]) == k then 0
    else 1 + FirstMatch(rows[1..], key, k)
  }

  function Username(u: User): string { u.username }

  function GroupName(g: Group): string { g.name }

  /** The position of the first user named exactly `username`, or `|users|`. */
  function FindUser(users: seq<User>, username: string): nat {
    FirstMatch(users, Username, username)
  }

  /** The position of the first group named exactly `name`, or `|groups|`. */
  function FindGroup(groups: seq<Group>, name: string): nat {
    FirstMatch(groups, GroupName, name)
  }

  /** Appending a row that fits and has a fresh username and the next id keeps the user table valid. */
  lemma AppendUserKeepsTable(users: seq<User>, nextId: int, u: User)
    requires ValidUserTable(users, nextId)
    requires FindUser(users, u.username) == |users|
    requires u.id == nextId && FitsUserRow(u)
    ensures ValidUserTable(users + [u], nextId + 1)
  {
  }

  /** The same for groups. */
  lemma AppendGroupKeepsTable(groups: seq<Group>, nextId: int, g: Group)
    requires ValidGroupTable(groups, nextId)
    requires FindGroup(groups, g.name) == |groups|
    requires g.id == nextId && FitsGroupRow(g)
    ensures ValidGroupTable(groups + [g], nextId + 1)
  {
  }
}
