/** Types shared by the server controllers and the browser client: the
    optional-value wrapper, the two role names, JavaScript truthiness of a
    request field, the admin profile that travels from server to client, and
    the wire shapes of the create requests. */
module Common {

  datatype Option<T> = None | Some(value: T)

  /** Role names as the server stores them and the client compares them
      (string equality: any other string is neither role). */
  const SUPER_ADMIN: string := "SUPER_ADMIN"
  const MODERATOR: string := "MODERATOR"

  predicate KnownRole(role: string) {
    role == SUPER_ADMIN || role == MODERATOR
  }

  /** A string field of a JSON request body, as `!field` in JavaScript sees it:
      a missing or null field and the empty string are falsy, every other
      string is truthy. */
  predicate Truthy(field: Option<string>) {
    field.Some? && field.value != ""
  }

  /** `a || b` on an optional string field. */
  function OrElse(field: Option<string>, fallback: string): string
  {
    if Truthy(field) then field.value else fallback
  }

  /** The admin object returned by sign-in and creation and held by the
      client session: id, name, email and role, never the password. */
  datatype AdminProfile = AdminProfile(adminId: string, name: string, email: string, role: string)

  /** Whether the signed-in viewer (if any) is a super admin:
      `admin?.role === "SUPER_ADMIN"`. */
  predicate IsSuperAdmin(viewer: Option<AdminProfile>) {
    viewer.Some? && viewer.value.role == SUPER_ADMIN
  }

  /** Whether the viewer is a moderator: `admin?.role === "MODERATOR"`. */
  predicate IsModerator(viewer: Option<AdminProfile>) {
    viewer.Some? && viewer.value.role == MODERATOR
  }

  /** Body of POST /auth/create. */
  datatype CreateAdminRequest = CreateAdminRequest(
    adminId: Option<string>, name: Option<string>, email: Option<string>,
    password: Option<string>, role: Option<string>)

  /** Body of POST /auth/signin. */
  datatype SigninRequest = SigninRequest(email: Option<string>, password: Option<string>)

  /** Body of POST /users. */
  datatype CreateUserRequest = CreateUserRequest(userId: Option<string>, name: Option<string>, email: Option<string>)

  /** A user row as the users endpoints return it. */
  datatype User = User(userId: string, name: string, email: string)

  /** What `await mutation(...).unwrap()` yields on the client: the response
      payload, or a rejection carrying `err?.data?.message`. */
  datatype MutationResult<T> = Fulfilled(payload: T) | Rejected(message: Option<string>)

  /** `err?.data?.message || fallback` for a rejected mutation. */
  function RejectionText<T>(result: MutationResult<T>, fallback: string): string
    requires result.Rejected?
  {
    OrElse(result.message, fallback)
  }
}
