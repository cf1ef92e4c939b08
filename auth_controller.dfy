/** The admin endpoints of the Express server: sign-in, creation, listing and
    deletion, over the admin table of the database. The table is a map from
    adminId (its primary key) to the rest of the row; email carries a unique
    index. Store failures other than a primary-key clash are not modelled. */
module AuthController {
  import opened Common
  import opened ServerHttp

  type AdminId = string

  /** A row of the admin table, without its key. `createdAt` is the
      database's default timestamp, supplied by the caller of the model. */
  datatype AdminRecord = AdminRecord(name: string, email: string, password: string, role: string, createdAt: int)

  /** The columns GET /auth/admins selects: everything but the password. */
  datatype AdminListing = AdminListing(adminId: AdminId, name: string, email: string, role: string, createdAt: int)

  const MSG_SIGNIN_REQUIRED := "Email and password are required"
  const MSG_INVALID_CREDENTIALS := "Invalid email or password"
  const MSG_CREATE_REQUIRED := "All fields are required"
  const MSG_EMAIL_EXISTS := "Admin with this email already exists"
  const MSG_CREATE_ERROR := "Error creating admin"
  const MSG_ADMIN_NOT_FOUND := "Admin not found"
  const MSG_LAST_SUPER_ADMIN := "Cannot delete the only super admin"
  const MSG_ADMIN_DELETED := "Admin deleted successfully"

  function Profile(id: AdminId, rec: AdminRecord): AdminProfile {
    AdminProfile(id, rec.name, rec.email, rec.role)
  }

  function Listing(id: AdminId, rec: AdminRecord): AdminListing {
    AdminListing(id, rec.name, rec.email, rec.role, rec.createdAt)
  }

  /** The unique index on email: no two rows share an email. */
  ghost predicate EmailsUnique(rows: map<AdminId, AdminRecord>) {
    forall a, b :: a in rows && b in rows && rows[a].email == rows[b].email ==> a == b
  }

  /** `findUnique({ where: { email } })` finds a row. */
  predicate EmailTaken(rows: map<AdminId, AdminRecord>, email: string) {
    exists id :: id in rows && rows[id].email == email
  }

  /** Some row has exactly this email and exactly this password. */
  ghost predicate CredentialsMatch(rows: map<AdminId, AdminRecord>, email: string, password: string) {
    exists id :: id in rows && rows[id].email == email && rows[id].password == password
  }

  /** All four fields `createAdmin` insists on are truthy. */
  predicate CreateFieldsPresent(req: CreateAdminRequest) {
    Truthy(req.adminId) && Truthy(req.name) && Truthy(req.email) && Truthy(req.password)
  }

  /** The ids of the rows holding a role. */
  function HoldersOf(rows: map<AdminId, AdminRecord>, role: string): set<AdminId> {
    set id | id in rows && rows[id].role == role
  }

  /** A role has no holders exactly when no row carries it. */
  lemma NoHolders(rows: map<AdminId, AdminRecord>, role: string)
    ensures HoldersOf(rows, role) == {} <==> forall id :: id in rows ==> rows[id].role != role
  {
    if HoldersOf(rows, role) != {} {
      var id :| id in HoldersOf(rows, role);
    } else {
      forall id | id in rows
        ensures rows[id].role != role
      {
        assert rows[id].role == role ==> id in HoldersOf(rows, role);
      }
    }
  }

  /** `prisma.admin.count({ where: { role } })`. */
  function CountRole(rows: map<AdminId, AdminRecord>, role: string): (r: nat)
    ensures r == 0 <==> forall id :: id in rows ==> rows[id].role != role
  {
    NoHolders(rows, role);
    |HoldersOf(rows, role)|
  }

  /** The "only super admin" guard of deleteAdmin. */
  predicate LastSuperAdminGuard(rows: map<AdminId, AdminRecord>, id: AdminId)
    requires id in rows
  {
    rows[id].role == SUPER_ADMIN && CountRole(rows, SUPER_ADMIN) == 1
  }

  /** Removing one row lowers the count of its role by one and leaves the
      count of every other role alone. */
  lemma {:induction false} CountAfterRemoval(rows: map<AdminId, AdminRecord>, id: AdminId, role: string)
    requires id in rows
    ensures CountRole(rows - {id}, role) == CountRole(rows, role) - (if rows[id].role == role then 1 else 0)
  {
    assert HoldersOf(rows - {id}, role) == HoldersOf(rows, role) - {id};
  }

  /** Adding a row with a fresh key raises the count of its role by one. */
  lemma {:induction false} CountAfterInsertion(rows: map<AdminId, AdminRecord>, id: AdminId, rec: AdminRecord, role: string)
    requires id !in rows
    ensures CountRole(rows[id := rec], role) == CountRole(rows, role) + (if rec.role == role then 1 else 0)
  {
    if rec.role == role {
      assert HoldersOf(rows[id := rec], role) == HoldersOf(rows, role) + {id};
    } else {
      assert HoldersOf(rows[id := rec], role) == HoldersOf(rows, role);
    }
  }

  /** A deletion the guard lets through never removes the last super admin. */
  lemma SuperAdminSurvivesDeletion(rows: map<AdminId, AdminRecord>, id: AdminId)
    requires id in rows && !LastSuperAdminGuard(rows, id)
    requires CountRole(rows, SUPER_ADMIN) >= 1
    ensures CountRole(rows - {id}, SUPER_ADMIN) >= 1
  {
    CountAfterRemoval(rows, id, SUPER_ADMIN);
  }

  /** The admin table behind the four endpoints. */
  class AdminDirectory {
    var rows: map<AdminId, AdminRecord>

    ghost predicate Valid()
      reads this
    {
      EmailsUnique(rows)
    }

    constructor (initial: map<AdminId, AdminRecord>)
      requires EmailsUnique(initial)
      ensures Valid() && rows == initial
    {
      rows := initial;
    }

    /** POST /auth/signin. */
    method Signin(req: SigninRequest) returns (reply: Response<AdminProfile>)
      requires Valid()
      ensures !Truthy(req.email) || !Truthy(req.password) ==>
                reply == Failure(BadRequest, MSG_SIGNIN_REQUIRED)
      ensures reply.Success? <==>
                Truthy(req.email) && Truthy(req.password) &&
                CredentialsMatch(rows, req.email.value, req.password.value)
      ensures Truthy(req.email) && Truthy(req.password) && reply.Failure? ==>
                reply == Failure(Unauthorized, MSG_INVALID_CREDENTIALS)
      ensures reply.Success? ==>
                reply.status == OK && reply.payload.adminId in rows &&
                reply.payload == Profile(reply.payload.adminId, rows[reply.payload.adminId]) &&
                reply.payload.email == req.email.value
      ensures forall id ::
                (id in rows && Truthy(req.email) && Truthy(req.password) &&
                 Some(rows[id].email) == req.email && Some(rows[id].password) == req.password) ==>
                reply == Success(OK, Profile(id, rows[id]))
    {
      if !Truthy(req.email) || !Truthy(req.password) {
        return Failure(BadRequest, MSG_SIGNIN_REQUIRED);
      }
      var email, password := req.email.value, req.password.value;
      if !EmailTaken(rows, email) {
        return Failure(Unauthorized, MSG_INVALID_CREDENTIALS);
      }
      var id :| id in rows && rows[id].email == email;
      if rows[id].password != password {
        return Failure(Unauthorized, MSG_INVALID_CREDENTIALS);
      }
      reply := Success(OK, Profile(id, rows[id]));
    }

    /** POST /auth/create. The role is stored as supplied when truthy and
        defaults to MODERATOR otherwise; the password length is not checked;
        a clash on adminId is the ORM's primary-key error, answered by the
        catch-all 500. */
    method CreateAdmin(req: CreateAdminRequest, now: int) returns (reply: Response<AdminProfile>)
      requires Valid()
      modifies this
      ensures Valid()
      ensures !CreateFieldsPresent(req) ==>
                reply == Failure(BadRequest, MSG_CREATE_REQUIRED) && rows == old(rows)
      ensures CreateFieldsPresent(req) && EmailTaken(old(rows), req.email.value) ==>
                reply == Failure(BadRequest, MSG_EMAIL_EXISTS) && rows == old(rows)
      ensures CreateFieldsPresent(req) && !EmailTaken(old(rows), req.email.value) && req.adminId.value in old(rows) ==>
                reply == Failure(InternalServerError, MSG_CREATE_ERROR) && rows == old(rows)
      ensures reply.Success? <==>
                CreateFieldsPresent(req) && !EmailTaken(old(rows), req.email.value) && req.adminId.value !in old(rows)
      ensures reply.Success? ==>
                var rec := AdminRecord(req.name.value, req.email.value, req.password.value,
                                       OrElse(req.role, MODERATOR), now);
                rows == old(rows)[req.adminId.value := rec] &&
                reply == Success(Created, Profile(req.adminId.value, rec))
      ensures reply.Success? ==>
                && reply.payload.role != ""
                && (Truthy(req.role) ==> reply.payload.role == req.role.value)
                && (!Truthy(req.role) ==> reply.payload.role == MODERATOR)
    {
      if !CreateFieldsPresent(req) {
        return Failure(BadRequest, MSG_CREATE_REQUIRED);
      }
      var id, email := req.adminId.value, req.email.value;
      if EmailTaken(rows, email) {
        return Failure(BadRequest, MSG_EMAIL_EXISTS);
      }
      if id in rows {
        return Failure(InternalServerError, MSG_CREATE_ERROR);
      }
      var rec := AdminRecord(req.name.value, email, req.password.value, OrElse(req.role, MODERATOR), now);
      rows := rows[id := rec];
      reply := Success(Created, Profile(id, rec));
    }

    /** GET /auth/admins: every row, unfiltered, without the password. */
    method GetAllAdmins() returns (reply: Response<map<AdminId, AdminListing>>)
      ensures reply.Success? && reply.status == OK
      ensures reply.payload.Keys == rows.Keys
      ensures forall id :: id in rows ==>
                reply.payload[id].adminId == id && reply.payload[id].name == rows[id].name &&
                reply.payload[id].email == rows[id].email && reply.payload[id].role == rows[id].role &&
                reply.payload[id].createdAt == rows[id].createdAt
    {
      reply := Success(OK, map id | id in rows :: Listing(id, rows[id]));
    }

    /** DELETE /auth/admins/:adminId, refusing to remove the only super admin. */
    method DeleteAdmin(adminId: AdminId) returns (reply: Response<string>)
      requires Valid()
      modifies this
      ensures Valid()
      ensures adminId !in old(rows) ==> reply == Failure(NotFound, MSG_ADMIN_NOT_FOUND) && rows == old(rows)
      ensures adminId in old(rows) && LastSuperAdminGuard(old(rows), adminId) ==>
                reply == Failure(BadRequest, MSG_LAST_SUPER_ADMIN) && rows == old(rows)
      ensures adminId in old(rows) && !LastSuperAdminGuard(old(rows), adminId) ==>
                reply == Success(OK, MSG_ADMIN_DELETED) && rows == old(rows) - {adminId}
      ensures CountRole(old(rows), SUPER_ADMIN) >= 1 ==> CountRole(rows, SUPER_ADMIN) >= 1
    {
      if adminId !in rows {
        return Failure(NotFound, MSG_ADMIN_NOT_FOUND);
      }
      var superAdminCount := CountRole(rows, SUPER_ADMIN);
      if rows[adminId].role == SUPER_ADMIN && superAdminCount == 1 {
        return Failure(BadRequest, MSG_LAST_SUPER_ADMIN);
      }
      if CountRole(rows, SUPER_ADMIN) >= 1 {
        SuperAdminSurvivesDeletion(rows, adminId);
      }
      rows := rows - {adminId};
      reply := Success(OK, MSG_ADMIN_DELETED);
    }
  }
}
