/** Client and server together: the client pages' requests answered by the
    server's endpoints, the answers handed back to the pages as the data
    layer's mutation results (a 2xx reply fulfils the mutation with its
    body, any other rejects it with the body's message). */
module EndToEnd {
  import opened Common
  import opened ServerHttp
  import AuthController
  import GlobalState
  import DashboardWrapper
  import SigninPage
  import ModeratorsPage
  import Seed

  /** A reply as the data layer hands it to the page. */
  function Deliver<T>(reply: Response<T>): (m: MutationResult<T>)
    ensures m.Fulfilled? <==> reply.Success?
    ensures m.Fulfilled? ==> m.payload == reply.payload
    ensures m.Rejected? ==> m.message == Some(reply.message)
  {
    match reply
    case Success(_, payload) => Fulfilled(payload)
    case Failure(_, message) => Rejected(Some(message))
  }

  /** The sign-in reply: a 200 carries `{ success: true, admin }`. */
  function DeliverSignin(reply: Response<AdminProfile>): (m: MutationResult<SigninPage.SigninPayload>)
    ensures m.Fulfilled? <==> reply.Success?
    ensures m.Fulfilled? ==> m.payload == SigninPage.SigninPayload(true, reply.payload)
  {
    match reply
    case Success(_, admin) => Fulfilled(SigninPage.SigninPayload(true, admin))
    case Failure(_, message) => Rejected(Some(message))
  }

  /** Submitting the sign-in form against the admin table: with stored
      credentials the session holds that admin's profile and the page moves
      to the dashboard; otherwise the session is untouched and the page
      shows its own error text. */
  method SigninFlow(dir: AuthController.AdminDirectory, page: SigninPage.SigninPage, store: GlobalState.Store)
    returns (navigate: Option<string>)
    requires dir.Valid() && store.Valid()
    requires page.email != "" && page.password != ""
    modifies page, store
    ensures store.Valid()
    ensures store.isSidebarCollapsed == old(store.isSidebarCollapsed) && store.isDarkMode == old(store.isDarkMode)
    ensures AuthController.CredentialsMatch(dir.rows, page.email, page.password) ==>
              && store.admin.Some? && store.isAuthenticated
              && store.admin.value.adminId in dir.rows
              && store.admin.value == AuthController.Profile(store.admin.value.adminId, dir.rows[store.admin.value.adminId])
              && store.admin.value.email == page.email
              && navigate == Some(SigninPage.DASHBOARD_PATH)
    ensures !AuthController.CredentialsMatch(dir.rows, page.email, page.password) ==>
              && store.Snapshot() == old(store.Snapshot())
              && navigate.None? && page.errorMsg == SigninPage.MSG_INVALID
  {
    var reply := dir.Signin(SigninRequest(Some(page.email), Some(page.password)));
    var sent;
    sent, navigate := page.HandleSignin(store, DeliverSignin(reply));
  }

  /** After a successful sign-in the wrapper shows the dashboard and never
      redirects; a moderator is still denied the restricted pages. */
  lemma SignedInSessionIsGuarded(s: GlobalState.State, admin: AdminProfile, pathname: string)
    requires pathname != DashboardWrapper.SIGNIN_PATH
    ensures var t := GlobalState.Reduce(s, GlobalState.SetAdmin(Some(admin)));
            && DashboardWrapper.RedirectTarget(true, t.isAuthenticated, pathname).None?
            && (DashboardWrapper.Render(pathname, true, t.admin, t.isSidebarCollapsed, t.isDarkMode) == DashboardWrapper.AccessDenied
                <==> admin.role == MODERATOR && DashboardWrapper.ModeratorRestricted(pathname))
  {
  }

  /** Adding a moderator from the page: a valid form with a new email and the
      fresh id stores a row whose role is MODERATOR, and the form is reset. */
  method CreateModeratorFlow(dir: AuthController.AdminDirectory, page: ModeratorsPage.ModeratorsPage,
                             newId: string, now: int)
    returns (sent: Option<CreateAdminRequest>)
    requires dir.Valid() && newId != ""
    modifies dir, page
    ensures dir.Valid()
    ensures ModeratorsPage.AdminFormError(old(page.formData)).Some? ==>
              sent.None? && dir.rows == old(dir.rows)
    ensures var f := old(page.formData);
            ModeratorsPage.AdminFormError(f).None? && !AuthController.EmailTaken(old(dir.rows), f.email) &&
            newId !in old(dir.rows) ==>
              && dir.rows == old(dir.rows)[newId := AuthController.AdminRecord(f.name, f.email, f.password, MODERATOR, now)]
              && page.formData == ModeratorsPage.EMPTY_ADMIN_FORM && !page.showModal && page.error == ""
    ensures var f := old(page.formData);
            ModeratorsPage.AdminFormError(f).None? && AuthController.EmailTaken(old(dir.rows), f.email) ==>
              dir.rows == old(dir.rows) && page.error == AuthController.MSG_EMAIL_EXISTS
  {
    var reply: Response<AdminProfile> := Failure(BadRequest, "");
    if ModeratorsPage.AdminFormError(page.formData).None? {
      reply := dir.CreateAdmin(ModeratorsPage.CreateRequest(page.formData, newId), now);
    }
    sent := page.HandleCreateAdmin(newId, Deliver(reply));
  }

  /** The six-character minimum lives only in the page: the server creates
      an admin with a one-character password when asked directly. */
  method ServerAcceptsShortPassword(dir: AuthController.AdminDirectory, now: int)
    returns (reply: Response<AdminProfile>)
    requires dir.Valid()
    requires "admin-x" !in dir.rows && !AuthController.EmailTaken(dir.rows, "x@example.com")
    modifies dir
    ensures ModeratorsPage.AdminFormError(ModeratorsPage.AdminForm("X", "x@example.com", "1")) ==
              Some(ModeratorsPage.MSG_PASSWORD_SHORT)
    ensures reply.Success? && Code(reply.status) == 201
    ensures "admin-x" in dir.rows && dir.rows["admin-x"].password == "1"
  {
    reply := dir.CreateAdmin(CreateAdminRequest(Some("admin-x"), Some("X"), Some("x@example.com"), Some("1"), None), now);
  }

  /** After seeding, the fixture's super admin cannot be deleted, the
      moderator can, and the super admin stays protected afterwards. */
  method SeededSuperAdminIsProtected(db: Seed.Database, contents: seq<seq<Seed.Row>>, t1: int, t2: int)
    returns (first: Response<string>, second: Response<string>, third: Response<string>)
    requires |contents| == |Seed.ORDERED_FILE_NAMES|
    modifies db
    ensures first == Failure(BadRequest, AuthController.MSG_LAST_SUPER_ADMIN)
    ensures second == Success(OK, AuthController.MSG_ADMIN_DELETED)
    ensures third == Failure(BadRequest, AuthController.MSG_LAST_SUPER_ADMIN)
  {
    var missing, skipped := Seed.SeedMain(db, contents, t1, t2);
    Seed.AdminFixtureShape(t1, t2);
    var dir := new AuthController.AdminDirectory(db.admins);
    first := dir.DeleteAdmin("admin-001");
    second := dir.DeleteAdmin("admin-002");
    assert dir.rows == map["admin-001" := Seed.AdminFixture(t1, t2)["admin-001"]];
    assert AuthController.HoldersOf(dir.rows, SUPER_ADMIN) == {"admin-001"};
    third := dir.DeleteAdmin("admin-001");
  }
}
