/** The moderators page of the client: who may see it, which admin rows it
    shows, and its create and delete handlers. The page's own state (the
    modal flag, the form and the error text) lives in `ModeratorsPage`; the
    fresh id from `uuidv4()`, the answer of `confirm()` and the server's
    replies are inputs. */
module ModeratorsPage {
  import opened Common
  import opened Grid

  const MSG_FIELDS_REQUIRED := "Name, email, and password are required"
  const MSG_PASSWORD_SHORT := "Password must be at least 6 characters"
  const MSG_CREATE_FAILED := "Failed to create admin"
  const MSG_CANNOT_DELETE_SUPER := "Cannot delete Super Admin accounts"
  const MSG_DELETE_FAILED := "Failed to delete moderator"
  const MIN_PASSWORD_LENGTH := 6

  /** The grid's static columns; the static "actions" column calls an
      optional handler that is never supplied. */
  const ADMIN_COLUMNS: seq<Column> := [
    Column("adminId", "ID", false),
    Column("name", "Name", false),
    Column("email", "Email", false),
    Column("role", "Role", false),
    Column(ACTIONS, "Actions", false)
  ]

  datatype AdminForm = AdminForm(name: string, email: string, password: string)

  const EMPTY_ADMIN_FORM := AdminForm("", "", "")

  /** The rows kept by the page's filter: either of the two known roles. */
  function KeepListedRoles(admins: seq<AdminProfile>): (r: seq<AdminProfile>)
    ensures forall a :: a in r <==> a in admins && KnownRole(a.role)
    ensures |r| <= |admins|
  {
    if admins == [] then []
    else (if KnownRole(admins[0].role) then [admins[0]] else []) + KeepListedRoles(admins[1..])
  }

  /** `admins?.filter(...) || []`: no data yet means no rows. */
  function FilteredAdmins(admins: Option<seq<AdminProfile>>): (r: seq<AdminProfile>)
    ensures admins.None? ==> r == []
    ensures forall a :: a in r <==> admins.Some? && a in admins.value && KnownRole(a.role)
  {
    if admins.Some? then KeepListedRoles(admins.value) else []
  }

  /** The filter distributes over concatenation, so it keeps the original
      order of the rows it keeps. */
  lemma {:induction false} KeepListedRolesAppend(xs: seq<AdminProfile>, ys: seq<AdminProfile>)
    ensures KeepListedRoles(xs + ys) == KeepListedRoles(xs) + KeepListedRoles(ys)
  {
    if xs == [] {
      assert xs + ys == ys;
    } else {
      assert (xs + ys)[0] == xs[0] && (xs + ys)[1..] == xs[1..] + ys;
      KeepListedRolesAppend(xs[1..], ys);
    }
  }

  /** When every row has a known role, as the server's own endpoints
      produce them with the client's request, nothing is filtered out. */
  lemma {:induction false} KnownRolesAllShown(admins: seq<AdminProfile>)
    requires forall i :: 0 <= i < |admins| ==> KnownRole(admins[i].role)
    ensures KeepListedRoles(admins) == admins
  {
    if admins != [] {
      KnownRolesAllShown(admins[1..]);
    }
  }

  /** `filteredAdmins.find(a => a.adminId === adminId)`: the first row with
      the id. */
  function FindAdmin(rows: seq<AdminProfile>, adminId: string): (r: Option<AdminProfile>)
    ensures r.None? <==> forall i :: 0 <= i < |rows| ==> rows[i].adminId != adminId
    ensures r.Some? ==>
              exists i :: 0 <= i < |rows| && rows[i] == r.value && rows[i].adminId == adminId &&
                          forall j :: 0 <= j < i ==> rows[j].adminId != adminId
  {
    if rows == [] then None
    else if rows[0].adminId == adminId then Some(rows[0])
    else FindAdmin(rows[1..], adminId)
  }

  /** Admin ids are the table's primary key, so the listing repeats none. */
  ghost predicate IdsUnique(rows: seq<AdminProfile>) {
    forall i, j :: 0 <= i < |rows| && 0 <= j < |rows| && rows[i].adminId == rows[j].adminId ==> i == j
  }

  /** The delete action of a row is disabled for a super admin. */
  predicate DeleteDisabled(row: AdminProfile) {
    row.role == SUPER_ADMIN
  }

  /** What one click on the delete action does: the DELETE request it sends,
      if any, and the alert it shows, if any. */
  datatype DeleteEffect = DeleteEffect(request: Option<string>, alert: Option<string>)

  /** `handleDeleteAdmin`, with the answer of `confirm()` and the server's
      reply as inputs. */
  function HandleDeleteAdmin(rows: seq<AdminProfile>, adminId: string, confirmed: bool,
                             reply: MutationResult<string>): (e: DeleteEffect)
    ensures IsSuperAdmin(FindAdmin(rows, adminId)) ==>
              e == DeleteEffect(None, Some(MSG_CANNOT_DELETE_SUPER))
    ensures e.request.Some? <==> !IsSuperAdmin(FindAdmin(rows, adminId)) && confirmed
    ensures e.request.Some? ==> e.request.value == adminId
    ensures !IsSuperAdmin(FindAdmin(rows, adminId)) && !confirmed ==> e == DeleteEffect(None, None)
    ensures e.request.Some? && reply.Fulfilled? ==> e.alert.None?
    ensures e.request.Some? && reply.Rejected? ==>
              e.alert == Some(RejectionText(reply, MSG_DELETE_FAILED))
  {
    if IsSuperAdmin(FindAdmin(rows, adminId)) then DeleteEffect(None, Some(MSG_CANNOT_DELETE_SUPER))
    else if !confirmed then DeleteEffect(None, None)
    else if reply.Rejected? then DeleteEffect(Some(adminId), Some(RejectionText(reply, MSG_DELETE_FAILED)))
    else DeleteEffect(Some(adminId), None)
  }

  /** A super admin's row can never be deleted from this page: its action
      is disabled, and the handler refuses it before asking for confirmation. */
  lemma SuperAdminRowNeverDeleted(rows: seq<AdminProfile>, i: nat, confirmed: bool, reply: MutationResult<string>)
    requires i < |rows| && rows[i].role == SUPER_ADMIN && IdsUnique(rows)
    ensures DeleteDisabled(rows[i])
    ensures HandleDeleteAdmin(rows, rows[i].adminId, confirmed, reply).request.None?
  {
    var found := FindAdmin(rows, rows[i].adminId);
    var k :| 0 <= k < |rows| && rows[k] == found.value && rows[k].adminId == rows[i].adminId &&
             forall j :: 0 <= j < k ==> rows[j].adminId != rows[i].adminId;
    assert k == i;
  }

  /** The create form's validation: the error it shows, or none. */
  function AdminFormError(f: AdminForm): (r: Option<string>)
    ensures r.None? <==> f.name != "" && f.email != "" && f.password != "" && |f.password| >= MIN_PASSWORD_LENGTH
    ensures f.name == "" || f.email == "" || f.password == "" ==> r == Some(MSG_FIELDS_REQUIRED)
    ensures f.name != "" && f.email != "" && 0 < |f.password| < MIN_PASSWORD_LENGTH ==> r == Some(MSG_PASSWORD_SHORT)
  {
    if f.name == "" || f.email == "" || f.password == "" then Some(MSG_FIELDS_REQUIRED)
    else if |f.password| < MIN_PASSWORD_LENGTH then Some(MSG_PASSWORD_SHORT)
    else None
  }

  /** The body of the create request: the fresh id, the form, and always the
      MODERATOR role. */
  function CreateRequest(f: AdminForm, adminId: string): (r: CreateAdminRequest)
    ensures r.role == Some(MODERATOR) && r.adminId == Some(adminId)
    ensures r.name == Some(f.name) && r.email == Some(f.email) && r.password == Some(f.password)
    ensures AdminFormError(f).None? && adminId != "" ==>
              Truthy(r.adminId) && Truthy(r.name) && Truthy(r.email) && Truthy(r.password)
  {
    CreateAdminRequest(Some(adminId), Some(f.name), Some(f.email), Some(f.password), Some(MODERATOR))
  }

  /** What the page renders. */
  datatype PageView = Denied | Loading | FetchFailed | Table(rows: seq<AdminProfile>, columns: seq<Column>)

  /** The page's render decision; the role check comes before loading and
      error states. */
  function ModeratorsView(viewer: Option<AdminProfile>, isLoading: bool, isError: bool,
                          admins: Option<seq<AdminProfile>>): (v: PageView)
    ensures v == Denied <==> !IsSuperAdmin(viewer)
    ensures IsSuperAdmin(viewer) && isLoading ==> v == Loading
    ensures v == FetchFailed <==> IsSuperAdmin(viewer) && !isLoading && (isError || admins.None?)
    ensures v.Table? <==> IsSuperAdmin(viewer) && !isLoading && !isError && admins.Some?
    ensures v.Table? ==> v == AdminTable(admins.value)
  {
    if !IsSuperAdmin(viewer) then Denied
    else if isLoading then Loading
    else if isError || admins.None? then FetchFailed
    else AdminTable(admins.value)
  }

  /** The table of fetched admins: the rows with the two listed roles, in
      their order, under the five columns with delete wired on "actions". */
  function AdminTable(data: seq<AdminProfile>): (v: PageView)
    ensures v.Table?
    ensures v.rows == KeepListedRoles(data)
    ensures forall a :: a in v.rows <==> a in data && KnownRole(a.role)
    ensures Fields(v.columns) == ["adminId", "name", "email", "role", ACTIONS]
    ensures forall i :: 0 <= i < |v.columns| ==> v.columns[i].deleteWired == (v.columns[i].field == ACTIONS)
  {
    Table(FilteredAdmins(Some(data)), WireDelete(ADMIN_COLUMNS))
  }

  /** The mounted page's state. */
  class ModeratorsPage {
    var showModal: bool
    var formData: AdminForm
    var error: string

    constructor ()
      ensures !showModal && formData == EMPTY_ADMIN_FORM && error == ""
    {
      showModal, formData, error := false, EMPTY_ADMIN_FORM, "";
    }

    /** `handleCreateAdmin`: validate, send the request with the supplied
        fresh id, then reset and close, or show the error. */
    method HandleCreateAdmin(newId: string, reply: MutationResult<AdminProfile>)
      returns (sent: Option<CreateAdminRequest>)
      modifies this
      ensures AdminFormError(old(formData)).Some? ==>
                && sent.None? && error == AdminFormError(old(formData)).value
                && formData == old(formData) && showModal == old(showModal)
      ensures AdminFormError(old(formData)).None? ==> sent == Some(CreateRequest(old(formData), newId))
      ensures sent.Some? && reply.Fulfilled? ==>
                formData == EMPTY_ADMIN_FORM && !showModal && error == ""
      ensures sent.Some? && reply.Rejected? ==>
                && formData == old(formData) && showModal == old(showModal)
                && error == RejectionText(reply, MSG_CREATE_FAILED)
    {
      error := "";
      if formData.name == "" || formData.email == "" || formData.password == "" {
        error := MSG_FIELDS_REQUIRED;
        return None;
      }
      if |formData.password| < MIN_PASSWORD_LENGTH {
        error := MSG_PASSWORD_SHORT;
        return None;
      }
      sent := Some(CreateRequest(formData, newId));
      if reply.Fulfilled? {
        formData := EMPTY_ADMIN_FORM;
        showModal := false;
      } else {
        error := RejectionText(reply, MSG_CREATE_FAILED);
      }
    }
  }
}
