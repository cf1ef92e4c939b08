/** The user endpoints of the Express server: listing, creation and
    deletion, over the users table keyed by userId. Uniqueness is checked on
    userId only; email is not unique. Store failures are not modelled. */
module UserController {
  import opened Common
  import opened ServerHttp

  type UserId = string

  /** A row of the users table, without its key. */
  datatype UserRecord = UserRecord(name: string, email: string)

  const MSG_USER_REQUIRED := "User ID, name, and email are required"
  const MSG_USER_EXISTS := "User with this ID already exists"
  const MSG_USER_NOT_FOUND := "User not found"
  const MSG_USER_DELETED := "User deleted successfully"

  function AsUser(id: UserId, rec: UserRecord): User {
    User(id, rec.name, rec.email)
  }

  /** All three fields `createUser` insists on are truthy. */
  predicate UserFieldsPresent(req: CreateUserRequest) {
    Truthy(req.userId) && Truthy(req.name) && Truthy(req.email)
  }

  /** The users table behind the three endpoints. */
  class UserDirectory {
    var rows: map<UserId, UserRecord>

    constructor (initial: map<UserId, UserRecord>)
      ensures rows == initial
    {
      rows := initial;
    }

    /** GET /users: every row, unfiltered. */
    method GetUsers() returns (reply: Response<map<UserId, User>>)
      ensures reply.Success? && reply.status == OK
      ensures reply.payload.Keys == rows.Keys
      ensures forall id :: id in rows ==>
                reply.payload[id].userId == id && reply.payload[id].name == rows[id].name &&
                reply.payload[id].email == rows[id].email
    {
      reply := Success(OK, map id | id in rows :: AsUser(id, rows[id]));
    }

    /** POST /users. */
    method CreateUser(req: CreateUserRequest) returns (reply: Response<User>)
      modifies this
      ensures !UserFieldsPresent(req) ==>
                reply == Failure(BadRequest, MSG_USER_REQUIRED) && rows == old(rows)
      ensures UserFieldsPresent(req) && req.userId.value in old(rows) ==>
                reply == Failure(BadRequest, MSG_USER_EXISTS) && rows == old(rows)
      ensures reply.Success? <==> UserFieldsPresent(req) && req.userId.value !in old(rows)
      ensures reply.Success? ==>
                rows == old(rows)[req.userId.value := UserRecord(req.name.value, req.email.value)] &&
                reply == Success(Created, User(req.userId.value, req.name.value, req.email.value))
    {
      if !UserFieldsPresent(req) {
        return Failure(BadRequest, MSG_USER_REQUIRED);
      }
      var id := req.userId.value;
      if id in rows {
        return Failure(BadRequest, MSG_USER_EXISTS);
      }
      var rec := UserRecord(req.name.value, req.email.value);
      rows := rows[id := rec];
      reply := Success(Created, AsUser(id, rec));
    }

    /** DELETE /users/:userId. */
    method DeleteUser(userId: UserId) returns (reply: Response<string>)
      modifies this
      ensures userId !in old(rows) ==> reply == Failure(NotFound, MSG_USER_NOT_FOUND) && rows == old(rows)
      ensures userId in old(rows) ==>
                reply == Success(OK, MSG_USER_DELETED) && rows == old(rows) - {userId}
      ensures forall id :: id in old(rows) && id != userId ==> id in rows && rows[id] == old(rows)[id]
    {
      if userId !in rows {
        return Failure(NotFound, MSG_USER_NOT_FOUND);
      }
      rows := rows - {userId};
      reply := Success(OK, MSG_USER_DELETED);
    }
  }

  /** Two successive POST /users with the same, new userId: the first is
      created, the second is refused as a duplicate, and the table keeps the
      first record. */
  method CreateSameUserTwice(dir: UserDirectory, first: CreateUserRequest, second: CreateUserRequest)
    returns (r1: Response<User>, r2: Response<User>)
    requires UserFieldsPresent(first) && UserFieldsPresent(second)
    requires first.userId == second.userId && first.userId.value !in dir.rows
    modifies dir
    ensures r1.Success? && r1.status == Created
    ensures r2 == Failure(BadRequest, MSG_USER_EXISTS)
    ensures dir.rows == old(dir.rows)[first.userId.value := UserRecord(first.name.value, first.email.value)]
  {
    r1 := dir.CreateUser(first);
    r2 := dir.CreateUser(second);
  }
}
