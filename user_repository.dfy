/**
 * The `users` table of src/repository/UserRepository.php, as a map from user
 * id to row.  A lookup that PDO answers with "the first matching row" answers
 * here with the matching row of smallest id.
 */
module UserRepository {
  import opened Wrappers
  import opened Tables

  datatype UserRow = UserRow(userId: int, email: string, hashedPassword: string, username: string,
                             userRole: Option<string>)

  /** The four columns `getUserByUsername` selects; the user id is not among them. */
  datatype UserSummary = UserSummary(email: string, hashedPassword: string, username: string,
                                     userRole: Option<string>)

  function Summary(u: UserRow): UserSummary {
    UserSummary(u.email, u.hashedPassword, u.username, u.userRole)
  }

  function EmailIs(email: string): UserRow -> bool {
    (u: UserRow) => u.email == email
  }

  function UsernameIs(username: string): UserRow -> bool {
    (u: UserRow) => u.username == username
  }

  function AnyUser(): UserRow -> bool {
    (u: UserRow) => true
  }

  /** The first row of a selection, or null when nothing matched. */
  function FirstMatch(m: map<int, UserRow>, p: UserRow -> bool): (r: Option<UserRow>)
    ensures r.None? <==> forall id | id in m :: !p(m[id])
    ensures r.Some? ==> r.value in m.Values && p(r.value)
  {
    var rows := Select(m, p);
    if rows == [] then
      assert forall id | id in m :: !p(m[id]) by {
        forall id | id in m ensures !p(m[id]) {
          SelectMembers(m, p, m[id]);
        }
      }
      None
    else
      assert MatchingKeys(m, p)[0] in MatchingKeys(m, p);
      Some(rows[0])
  }

  class UserRepository {
    var users: map<int, UserRow>
    /** The next value of the table's serial id. */
    var nextId: int

    ghost predicate Valid()
      reads this
    {
      forall id | id in users :: users[id].userId == id && id < nextId
    }

    constructor ()
      ensures Valid() && users == map[]
    {
      users := map[];
      nextId := 1;
    }

    /** `getUsers`: every row. */
    function GetUsers(): (r: seq<UserRow>)
      reads this
      ensures forall u :: u in r <==> u in users.Values
      ensures multiset(r) == multiset(Select(users, AnyUser()))
      ensures |r| == |users|
    {
      assert forall u :: u in Select(users, AnyUser()) <==> u in users.Values by {
        forall u ensures u in Select(users, AnyUser()) <==> u in users.Values {
          SelectMembers(users, AnyUser(), u);
        }
      }
      SelectEveryRow(users, AnyUser());
      Select(users, AnyUser())
    }

    /** `getUserByEmail`: a user with that email, or null when there is none. */
    function GetUserByEmail(email: string): (r: Option<UserRow>)
      reads this
      ensures r.None? <==> forall id | id in users :: users[id].email != email
      ensures r.Some? ==> r.value in users.Values && r.value.email == email
    {
      FirstMatch(users, EmailIs(email))
    }

    /** The whole row of a user with that username, id included, or null. */
    function FindUserByUsername(username: string): (r: Option<UserRow>)
      reads this
      ensures r.None? <==> forall id | id in users :: users[id].username != username
      ensures r.Some? ==> r.value in users.Values && r.value.username == username
    {
      FirstMatch(users, UsernameIs(username))
    }

    /** `getUserByUsername`: email, hashed password, username and role of that user, or null. */
    function GetUserByUsername(username: string): (r: Option<UserSummary>)
      reads this
      ensures r.None? <==> forall id | id in users :: users[id].username != username
      ensures r.Some? ==> exists u :: u in users.Values && u.username == username && r.value == Summary(u)
    {
      match FindUserByUsername(username)
      case None => None
      case Some(u) => Some(Summary(u))
    }

    /** `createUser`: inserts one row and returns its new id. */
    method CreateUser(email: string, hashedPassword: string, username: string) returns (userId: int)
      requires Valid()
      modifies this
      ensures Valid()
      ensures userId == old(nextId) && userId !in old(users)
      ensures users == old(users)[userId := UserRow(userId, email, hashedPassword, username, None)]
    {
      userId := nextId;
      users := users[userId := UserRow(userId, email, hashedPassword, username, None)];
      nextId := nextId + 1;
    }

    /** `deleteUserById`: removes that one row; the statement reports success. */
    method DeleteUserById(userId: int) returns (ok: bool)
      requires Valid()
      modifies this
      ensures Valid() && nextId == old(nextId)
      ensures ok
      ensures users == old(users) - {userId}
    {
      users := users - {userId};
      ok := true;
    }
  }
}
