/** The users page of the client: its role-dependent controls and columns
    and its create and delete handlers. The fresh id from `uuidv4()`, the
    answer of `confirm()` and the server's replies are inputs. */
module UsersPage {
  import opened Common
  import opened Grid

  const MSG_USER_FIELDS_REQUIRED := "Name and email are required"
  const MSG_CREATE_USER_FAILED := "Failed to create user"
  const MSG_DELETE_USER_FAILED := "Failed to delete user"

  /** The grid's static columns. */
  const USER_COLUMNS: seq<Column> := [
    Column("userId", "ID", false),
    Column("name", "Name", false),
    Column("email", "Email", false),
    Column(ACTIONS, "Actions", false)
  ]

  datatype UserForm = UserForm(name: string, email: string)

  const EMPTY_USER_FORM := UserForm("", "")

  /** What the page shows around the grid, decided by the viewer's role. */
  datatype Controls = Controls(addUserButton: bool, checkboxSelection: bool, columns: seq<Column>)

  /** The "Add User" button, the checkbox selection and the grid's columns. */
  function UsersControls(viewer: Option<AdminProfile>): (c: Controls)
    ensures c.addUserButton <==> IsSuperAdmin(viewer)
    ensures c.checkboxSelection <==> IsSuperAdmin(viewer)
    ensures IsSuperAdmin(viewer) ==>
              && Fields(c.columns) == ["userId", "name", "email", ACTIONS]
              && (forall i :: 0 <= i < |c.columns| ==> c.columns[i].deleteWired == (c.columns[i].field == ACTIONS))
    ensures !IsSuperAdmin(viewer) ==>
              && Fields(c.columns) == ["userId", "name", "email"]
              && (forall col :: col in c.columns ==> col.field != ACTIONS && !col.deleteWired)
  {
    var superAdmin := IsSuperAdmin(viewer);
    var columns := if superAdmin then WireDelete(USER_COLUMNS) else WithoutActions(USER_COLUMNS);
    ReadOnlyColumns();
    Controls(superAdmin, superAdmin, columns)
  }

  /** Without the "actions" column, the grid keeps the first three columns. */
  lemma ReadOnlyColumns()
    ensures WithoutActions(USER_COLUMNS) == USER_COLUMNS[..3]
  {
    var c := USER_COLUMNS;
    assert c[3..][1..] == [];
    assert WithoutActions(c[3..]) == [];
    assert c[2..][1..] == c[3..];
    assert WithoutActions(c[2..]) == [c[2]];
    assert c[1..][1..] == c[2..];
    assert WithoutActions(c[1..]) == [c[1], c[2]];
    assert c[0..][1..] == c[1..];
    assert WithoutActions(c) == [c[0], c[1], c[2]];
  }

  /** What the page renders. */
  datatype PageView = Loading | FetchFailed | Table(rows: seq<User>, controls: Controls)

  /** The page's render decision: no role check, every user row is shown. */
  function UsersView(viewer: Option<AdminProfile>, isLoading: bool, isError: bool, users: Option<seq<User>>): (v: PageView)
    ensures isLoading ==> v == Loading
    ensures v == FetchFailed <==> !isLoading && (isError || users.None?)
    ensures v.Table? <==> !isLoading && !isError && users.Some?
    ensures v.Table? ==> v.rows == users.value && v.controls == UsersControls(viewer)
  {
    if isLoading then Loading
    else if isError || users.None? then FetchFailed
    else Table(users.value, UsersControls(viewer))
  }

  /** The create form's validation: the error it shows, or none. */
  function UserFormError(f: UserForm): (r: Option<string>)
    ensures r.None? <==> f.name != "" && f.email != ""
    ensures r.Some? ==> r.value == MSG_USER_FIELDS_REQUIRED
  {
    if f.name == "" || f.email == "" then Some(MSG_USER_FIELDS_REQUIRED) else None
  }

  /** What one click on the delete action does. */
  datatype DeleteEffect = DeleteEffect(request: Option<string>, alert: Option<string>)

  /** `handleDeleteUser`, with the answer of `confirm()` and the server's
      reply as inputs. */
  function HandleDeleteUser(userId: string, confirmed: bool, reply: MutationResult<string>): (e: DeleteEffect)
    ensures e.request.Some? <==> confirmed
    ensures e.request.Some? ==> e.request.value == userId
    ensures !confirmed ==> e.alert.None?
    ensures confirmed && reply.Fulfilled? ==> e.alert.None?
    ensures confirmed && reply.Rejected? ==> e.alert == Some(RejectionText(reply, MSG_DELETE_USER_FAILED))
  {
    if !confirmed then DeleteEffect(None, None)
    else if reply.Rejected? then DeleteEffect(Some(userId), Some(RejectionText(reply, MSG_DELETE_USER_FAILED)))
    else DeleteEffect(Some(userId), None)
  }

  /** The mounted page's state. */
  class UsersPage {
    var showModal: bool
    var formData: UserForm
    var error: string

    constructor ()
      ensures !showModal && formData == EMPTY_USER_FORM && error == ""
    {
      showModal, formData, error := false, EMPTY_USER_FORM, "";
    }

    /** `handleCreateUser`: validate, send `{ userId, ...formData }`, then
        reset and close, or show the error. */
    method HandleCreateUser(newId: string, reply: MutationResult<User>) returns (sent: Option<CreateUserRequest>)
      modifies this
      ensures UserFormError(old(formData)).Some? ==>
                && sent.None? && error == MSG_USER_FIELDS_REQUIRED
                && formData == old(formData) && showModal == old(showModal)
      ensures UserFormError(old(formData)).None? ==>
                sent == Some(CreateUserRequest(Some(newId), Some(old(formData).name), Some(old(formData).email)))
      ensures sent.Some? && reply.Fulfilled? ==> formData == EMPTY_USER_FORM && !showModal && error == ""
      ensures sent.Some? && reply.Rejected? ==>
                && formData == old(formData) && showModal == old(showModal)
                && error == RejectionText(reply, MSG_CREATE_USER_FAILED)
    {
      error := "";
      if formData.name == "" || formData.email == "" {
        error := MSG_USER_FIELDS_REQUIRED;
        return None;
      }
      sent := Some(CreateUserRequest(Some(newId), Some(formData.name), Some(formData.email)));
      if reply.Fulfilled? {
        formData := EMPTY_USER_FORM;
        showModal := false;
      } else {
        error := RejectionText(reply, MSG_CREATE_USER_FAILED);
      }
    }
  }
}
