# Inventory management: admin directory, session and route guard

A Dafny model of the decision logic of a small inventory-management
dashboard. It has three parts:

- An Express server whose admin and user endpoints work on two database
  tables.
- A Next.js client that keeps the signed-in admin in a session slice,
  guards its pages by role, and validates its forms.
- A seed script that clears the tables, installs a fixed pair of admin
  accounts, and loads the data files.

Each database table is a `map` from its primary key to the rest of the row,
held by a class whose methods are the endpoints:

- `AuthController.AdminDirectory`: sign-in, creation, listing and deletion
  of admins. Deletion carries the rule that the only super admin cannot be
  removed.
- `UserController.UserDirectory`: listing, creation and deletion of users.
- `GlobalState.Store`: the client session slice. `Reduce` is its reducer,
  and every state it can reach satisfies `isAuthenticated == (admin != null)`.
- `DashboardWrapper`: the layout's render decision and its redirect to
  `/signin`.
- `ModeratorsPage`, `UsersPage` and `SigninPage`: the pages' filters,
  validators, role-dependent controls and submit handlers. The answer of
  `confirm()`, the fresh `uuidv4()` id and the server's reply are inputs.
- `Seed`: the deletion names and order, the admin fixture, and the seeding
  loop with its skip rule.
- `EndToEnd`: ties client handlers to server endpoints. A failed sign-in
  leaves the session untouched, a moderator created from the page is stored
  with role MODERATOR, and after seeding the super admin cannot be deleted.

Roles are strings compared with `===`, as in the code. The server stores
any truthy role it is given, so other strings can reach the client's filter.
A request body field is `Option<string>`: JavaScript's `!field` is true for
a missing field and for the empty string.

Two behaviours of the server are easy to miss:

- `createAdmin` stores `role || "MODERATOR"` and checks no password length.
  Only the moderators page sends MODERATOR and enforces six characters
  (`EndToEnd.ServerAcceptsShortPassword`).
- `createAdmin` does not check `adminId`, so a primary-key clash reaches the
  catch-all 500 answer (server/src/controllers/authController.ts:85-87).

## Model

| member | source | states |
|---|---|---|
| AuthController.CountRole | server/src/controllers/authController.ts:122-124 | The count is zero exactly when no row carries the role |
| AuthController.NoHolders | server/src/controllers/authController.ts:122-124 | The set of holders of a role is empty exactly when no row carries it |
| AuthController.CountAfterRemoval | server/src/controllers/authController.ts:122-133 | Deleting one row lowers the count of its own role by one and leaves the count of every other role unchanged |
| AuthController.CountAfterInsertion | server/src/controllers/authController.ts:66-74 | Inserting a row under a fresh id raises the count of its role by one and leaves the others unchanged |
| AuthController.SuperAdminSurvivesDeletion | server/src/controllers/authController.ts:121-133 | A deletion the last-super-admin guard lets through leaves at least one SUPER_ADMIN when there was one |
| AuthController.AdminDirectory.constructor | server/src/controllers/authController.ts:4 | The directory starts with the given table, whose emails are unique |
| AuthController.AdminDirectory.Signin | server/src/controllers/authController.ts:6-38 | A missing or empty email or password gives 400. Success happens exactly when a row has that email and exactly that password, and returns that row's id, name, email and role without the password. An unknown email and a wrong password give the same 401 "Invalid email or password" |
| AuthController.AdminDirectory.CreateAdmin | server/src/controllers/authController.ts:44-88 | A missing field gives 400 and a taken email gives 400, both leaving the table unchanged. An adminId clash gives 500. Otherwise exactly one row is added, with the supplied role when truthy and MODERATOR otherwise, and 201 echoes it without the password. Email uniqueness is kept |
| AuthController.AdminDirectory.GetAllAdmins | server/src/controllers/authController.ts:90-106 | 200 with every row, unfiltered, projected to adminId, name, email, role and createdAt |
| AuthController.AdminDirectory.DeleteAdmin | server/src/controllers/authController.ts:108-139 | An unknown id gives 404 and the only super admin gives 400, both with the table unchanged. Otherwise exactly that row is removed and 200 is returned. At least one SUPER_ADMIN before the call means at least one after it |
| UserController.UserDirectory.constructor | server/src/controllers/userController.ts:4 | The directory starts with the given table |
| UserController.UserDirectory.GetUsers | server/src/controllers/userController.ts:6-13 | 200 with every row, unfiltered |
| UserController.UserDirectory.CreateUser | server/src/controllers/userController.ts:15-49 | A missing field gives 400 and an existing userId gives 400, both with the table unchanged; uniqueness is by id only. Otherwise exactly {userId, name, email} is inserted and returned with 201 |
| UserController.UserDirectory.DeleteUser | server/src/controllers/userController.ts:51-72 | An unknown id gives 404 with the table unchanged. Otherwise exactly that row is removed and every other row is unchanged |
| UserController.CreateSameUserTwice | server/src/controllers/userController.ts:25-45 | Two creations with the same new userId give 201, then 400 "User with this ID already exists", and the table keeps the first record |
| GlobalState.InitialState | client/src/state/index.ts:17-22 | Not collapsed, not dark, no admin, not authenticated, and so consistent |
| GlobalState.Reduce | client/src/state/index.ts:28-41 | Every reducer preserves `isAuthenticated == (admin != null)`. setAdmin and logout always produce a consistent state and leave both preferences alone. setAdmin(a) with a non-null a holds a and is authenticated. logout holds no admin. Each preference setter changes only its own field |
| GlobalState.RunKeepsConsistent | client/src/state/index.ts:17-41 | Any sequence of actions from a consistent state, in particular from the initial one, ends in a consistent state |
| GlobalState.RunConcat | client/src/state/index.ts:24-43 | Dispatching two batches in turn equals dispatching their concatenation |
| GlobalState.PreferencesKeepSession | client/src/state/index.ts:28-33 | Any number of preference actions leaves admin and isAuthenticated unchanged |
| GlobalState.LogoutIdempotent | client/src/state/index.ts:38-41 | Logging out twice equals logging out once |
| GlobalState.SetAdminNoneIsLogout | client/src/state/index.ts:34-41 | setAdmin(null) yields the same state as logout |
| GlobalState.Store.constructor | client/src/state/index.ts:17-26 | The store starts in the initial state |
| GlobalState.Store.SetIsSidebarCollapsed | client/src/state/index.ts:28-30 | The new state is the reducer's result for the action, and the session invariant is kept |
| GlobalState.Store.SetIsDarkMode | client/src/state/index.ts:31-33 | The new state is the reducer's result for the action, and the session invariant is kept |
| GlobalState.Store.SetAdmin | client/src/state/index.ts:34-37 | The new state is the reducer's result and holds the payload. It is consistent and both preferences are unchanged |
| GlobalState.Store.Logout | client/src/state/index.ts:38-41 | The new state is the reducer's result, holds no admin and is not authenticated. Both preferences are unchanged |
| DashboardWrapper.Render | client/src/app/dashboardWrapper.tsx:43-81 | Children exactly on "/signin". Loading exactly off "/signin" before hydration. AccessDenied exactly for a hydrated MODERATOR on "/users" or "/expenses". Otherwise the layout, with "md:pl-24" when collapsed and "md:pl-72" when not, and theme "dark" or "light" |
| DashboardWrapper.RedirectTarget | client/src/app/dashboardWrapper.tsx:28-32 | A redirect, always to "/signin", exactly when hydrated, not authenticated, and off "/signin" |
| DashboardWrapper.SigninBypassesGuard | client/src/app/dashboardWrapper.tsx:28-46 | On "/signin" the bare page renders and nothing redirects, whatever the hydration or the session |
| DashboardWrapper.LoadingBeforeHydration | client/src/app/dashboardWrapper.tsx:28-51 | Before hydration every other path shows Loading and nothing redirects |
| DashboardWrapper.SuperAdminNeverDenied | client/src/app/dashboardWrapper.tsx:53-65 | A SUPER_ADMIN never gets Access Denied from the wrapper |
| DashboardWrapper.RestrictionIsExact | client/src/app/dashboardWrapper.tsx:54 | "/users" and "/expenses" are restricted; "/users/x" and "/expenses/" are not |
| DashboardWrapper.DeniedNeverRedirects | client/src/app/dashboardWrapper.tsx:28-63 | With a consistent session, a denied render never comes with a redirect |
| DashboardWrapper.SignedOutIsRedirected | client/src/app/dashboardWrapper.tsx:28-81 | A hydrated, signed-out visitor off "/signin" is sent to "/signin", while the same render shows the layout |
| DashboardWrapper.DashboardLayout.constructor | client/src/app/dashboardWrapper.tsx:20 | The hydration flag starts false |
| DashboardWrapper.DashboardLayout.HydrationEffect | client/src/app/dashboardWrapper.tsx:22-25 | The mount effect sets the hydration flag |
| DashboardWrapper.DashboardLayout.RedirectEffect | client/src/app/dashboardWrapper.tsx:27-32 | Pushes "/signin" exactly when the render it belongs to was hydrated, the visitor is signed out and the path is not "/signin" |
| DashboardWrapper.MountSequence | client/src/app/dashboardWrapper.tsx:20-51 | The first render is Loading. Its effects run in declaration order, and its redirect sees the unhydrated flag and does nothing. The second render and its redirect are those of a hydrated layout |
| Grid.WithoutActions | client/src/app/users/page.tsx:115 | The kept columns are exactly the non-"actions" columns, and there are no more of them than the input |
| Grid.WireDelete | client/src/app/moderators/page.tsx:116-132 | Same length and fields in the same order, headers kept, and the delete action wired exactly on the "actions" column (or where it already was) |
| Grid.WithoutActionsAppend | client/src/app/users/page.tsx:115 | The column filter distributes over concatenation, so it keeps the columns' order |
| ModeratorsPage.KeepListedRoles | client/src/app/moderators/page.tsx:45 | A row is kept exactly when its role is SUPER_ADMIN or MODERATOR |
| ModeratorsPage.KeepListedRolesAppend | client/src/app/moderators/page.tsx:45 | The filter distributes over concatenation, so the kept rows stay in their original order |
| ModeratorsPage.KnownRolesAllShown | client/src/app/moderators/page.tsx:45 | When every row has one of the two roles, the filter keeps the list unchanged |
| ModeratorsPage.FindAdmin | client/src/app/moderators/page.tsx:78 | None exactly when no row has the id. Otherwise the first row with the id |
| ModeratorsPage.HandleDeleteAdmin | client/src/app/moderators/page.tsx:77-92 | A SUPER_ADMIN target only raises the "Cannot delete Super Admin accounts" alert. Otherwise a request for that id is sent exactly when confirmed. A rejection alerts with the server's message or "Failed to delete moderator" |
| ModeratorsPage.SuperAdminRowNeverDeleted | client/src/app/moderators/page.tsx:78-83 | A SUPER_ADMIN row has its delete action disabled, and its handler sends no request whatever confirm answers |
| ModeratorsPage.AdminFormError | client/src/app/moderators/page.tsx:49-59 | No error exactly when name, email and password are non-empty and the password has at least 6 characters. An empty field gives the required-fields message, checked before the length message |
| ModeratorsPage.ModeratorsView | client/src/app/moderators/page.tsx:94-132 | A viewer who is not a SUPER_ADMIN, or no viewer, is denied, and only such a viewer is. A super admin sees Loading while loading, then the fetch error exactly when the fetch failed or gave no data. The table shows the filtered rows in their original order, exactly those with the two roles, with the five columns and the delete action wired on "actions" only |
| ModeratorsPage.AdminTable | client/src/app/moderators/page.tsx:116-149 | The grid holds the rows with the two listed roles, in their original order, under the columns adminId, name, email, role and actions, with delete wired on "actions" only |
| ModeratorsPage.FilteredAdmins | client/src/app/moderators/page.tsx:45 | No data gives no rows; otherwise a row is shown exactly when it is in the data and has one of the two roles |
| ModeratorsPage.CreateRequest | client/src/app/moderators/page.tsx:62-69 | The body carries the fresh id, the form's name, email and password, and role MODERATOR. A validated form with a non-empty id gives a body whose four required fields are all truthy |
| ModeratorsPage.ModeratorsPage.constructor | client/src/app/moderators/page.tsx:39-42 | The modal is closed, the form is empty and there is no error |
| ModeratorsPage.ModeratorsPage.HandleCreateAdmin | client/src/app/moderators/page.tsx:47-75 | An invalid form sets its error and sends nothing. A valid form sends the fresh id, the form and role MODERATOR. On success the form resets and the modal closes. On failure the error is the server's message or "Failed to create admin" |
| UsersPage.UsersControls | client/src/app/users/page.tsx:98-117 | The "Add User" button and checkbox selection appear exactly for a SUPER_ADMIN. A SUPER_ADMIN gets all four columns with delete wired on "actions". Anyone else gets userId, name and email in order, with no actions column |
| UsersPage.ReadOnlyColumns | client/src/app/users/page.tsx:115 | Dropping "actions" leaves exactly the first three columns |
| UsersPage.UsersView | client/src/app/users/page.tsx:70-117 | Loading while loading. Otherwise the fetch error exactly when the fetch failed or gave no data. The table shows every user row, unfiltered, with the role-dependent controls |
| UsersPage.UserFormError | client/src/app/users/page.tsx:45-48 | An error, "Name and email are required", exactly when name or email is empty |
| UsersPage.HandleDeleteUser | client/src/app/users/page.tsx:60-68 | A request for that id exactly when confirmed. A rejection alerts with the server's message or "Failed to delete user" |
| UsersPage.UsersPage.constructor | client/src/app/users/page.tsx:37-39 | The modal is closed, the form is empty and there is no error |
| UsersPage.UsersPage.HandleCreateUser | client/src/app/users/page.tsx:41-58 | An invalid form sets its error and sends nothing. A valid form sends the fresh id with the form. On success the form resets and the modal closes. On failure the error is the server's message or "Failed to create user" |
| SigninPage.SigninPage.constructor | client/src/app/signin/page.tsx:15-18 | Empty email, password and error |
| SigninPage.SigninPage.HandleSignin | client/src/app/signin/page.tsx:27-45 | The error is cleared first. An empty field sets "Please fill in all fields", sends nothing and leaves the session alone. Success true dispatches setAdmin(result.admin) and navigates to "/dashboard". Success false does neither. A rejection sets "Invalid email or password" with the session unchanged |
| SigninPage.SigninPage.ErrorEffect | client/src/app/signin/page.tsx:20-25 | A mutation error shows the server's message or "Sign in failed". With no error the text is kept |
| Seed.LastDot | server/prisma/seed.ts:9 | The position of the last '.' in a name, or none when the name has no dot |
| Seed.StripExtension | server/prisma/seed.ts:9 | The result is a prefix of the name: the part before the last dot, or the whole name exactly when the name has no dot after its first character or is "..". The result keeps the first character |
| Seed.Capitalize | server/prisma/seed.ts:10 | Same length; the first character is upper-cased, so it is never a lower-case letter; the rest is unchanged |
| Seed.ModelName | server/prisma/seed.ts:8-10 | A deletion name is the stripped file name with its first character upper-cased (never a lower-case letter) and the rest unchanged |
| Seed.Reverse | server/prisma/seed.ts:11 | Same length, and element i is the input's element at the mirrored position |
| Seed.DeletionOrder | server/prisma/seed.ts:8-11 | The deletion names are the capitalised names of the file list in exactly reverse order |
| Seed.IntendedDeletionOrder | server/prisma/seed.ts:8-11 | The corrected names, those the seeding loop looks up, in reverse order. Every file's table name occurs |
| Seed.DeletionMissesLowerCamelAccessors | server/prisma/seed.ts:13-14 | Under the premise that the client answers only lower-camel-case names, no capitalised deletion name is found |
| Seed.SeedFilesNeverCleared | server/prisma/seed.ts:29-41 | Under the same premise, for the script's own file list, no deletion name reaches a table |
| Seed.NotFound | server/prisma/seed.ts:13-23 | The reported names are exactly the listed names that are not tables |
| Seed.SkippedFiles | server/prisma/seed.ts:67-76 | The skipped files are exactly the files whose uncapitalised name is not a table |
| Seed.SeededTables | server/prisma/seed.ts:67-85 | Seeding adds no table, and appends to each table exactly the records of the files named after it, in file order |
| Seed.RowsForOther | server/prisma/seed.ts:67-85 | A table that no file is named after receives no records |
| Seed.AdminFixtureShape | server/prisma/seed.ts:44-64 | The fixture has unique emails and exactly one SUPER_ADMIN (admin-001) and one MODERATOR |
| Seed.Database.constructor | server/prisma/seed.ts:4 | The database starts with the given tables |
| Seed.Database.ClearModels | server/prisma/seed.ts:13-23 | Every listed table is emptied and every other table is kept. Missing names are reported in order and the loop goes on |
| Seed.Database.DeleteAllData | server/prisma/seed.ts:6-24 | The loop over the capitalised names as written. A table is emptied exactly when its name is among them |
| Seed.Database.DeleteAllDataIntended | server/prisma/seed.ts:6-24 | With the corrected names, every table a seed file fills is emptied |
| Seed.Database.SeedAdmins | server/prisma/seed.ts:44-64 | The admin table becomes exactly the two-account fixture; the data tables are untouched |
| Seed.Database.CreateRows | server/prisma/seed.ts:78-82 | One file's records are appended to its table in order |
| Seed.Database.SeedTables | server/prisma/seed.ts:67-85 | The tables become those of the seeding fold over the files in list order, and the skipped files are those without a table |
| Seed.SeedStep | server/prisma/seed.ts:67-85 | One turn of the seeding loop extends the fold and the skip list by one file |
| Seed.DeleteAllDataClearsNothing | server/prisma/seed.ts:6-24 | As written, under the premise that the client answers only lower-camel-case names, every name is reported missing and the tables are unchanged |
| Seed.NotFoundOfAbsent | server/prisma/seed.ts:13-23 | When no name is a table, every name is reported |
| Seed.SeedMain | server/prisma/seed.ts:26-86 | With the corrected deletion, the admins are the fixture and each data table holds exactly its files' records in file order (an untouched table keeps its rows). The skipped files are reported |
| EndToEnd.Deliver | client/src/app/moderators/page.tsx:63-73 | A 2xx reply fulfils the mutation with its payload; any other rejects it with the server's message |
| EndToEnd.DeliverSignin | client/src/app/signin/page.tsx:37-44 | A 200 sign-in reply fulfils with success true and the returned admin; any other rejects |
| EndToEnd.SigninFlow | client/src/app/signin/page.tsx:27-45 | With stored credentials, the session holds that row's profile and the page moves to "/dashboard". Otherwise the session is unchanged and the page shows "Invalid email or password" |
| EndToEnd.SignedInSessionIsGuarded | client/src/app/dashboardWrapper.tsx:28-63 | After setAdmin, a hydrated page never redirects, and it is denied exactly for a MODERATOR on a restricted path |
| EndToEnd.CreateModeratorFlow | client/src/app/moderators/page.tsx:47-75 | A valid form with a new email and id stores a MODERATOR row and resets the form. A taken email leaves the table unchanged and shows the server's message |
| EndToEnd.ServerAcceptsShortPassword | server/src/controllers/authController.ts:51-84 | The page refuses a one-character password, but the server stores it with 201 |
| EndToEnd.SeededSuperAdminIsProtected | server/prisma/seed.ts:44-64 | After seeding, deleting admin-001 gives 400. Deleting admin-002 succeeds, and admin-001 still gives 400 afterwards |

## Left out

- Database failures: every thrown store error (the catch-all 500 answers of each endpoint) is left out. The exception is the adminId primary-key clash in `createAdmin`, which is modelled. If a database enum rejected an unknown role, that would also be a 500; it is not modelled.
- `findMany` order: the listings are maps keyed by id, so the database's row order is not modelled.
- The pages receive lists in whatever order the data layer hands them over.
- Concurrency: the count-then-delete in `deleteAdmin` is one atomic step. Interleaved requests are not modelled.
- The async/await sequencing and React effect scheduling: each handler is one sequential step. The server's reply is an input that is given before the step.
- The data layer's fetching, caching and tag invalidation (client/src/state/api.ts). `EndToEnd.Deliver` only states how a reply becomes a fulfilled or rejected mutation.
- JSX markup, Tailwind classes and the DataGrid rendering. Columns are kept as field, header, and whether delete is wired.
- The DOM theme effect of the dashboard wrapper, which writes to `document`.
- The Sidebar and Navbar components.
- The modal's open and cancel buttons, the form inputs' change handlers and the password-visibility toggle.
- `alert`, `confirm`, `uuidv4()` and `router.push`: confirm's answer and the fresh id are inputs; the alert text and the pushed path are outputs.
- ModeratorsPage.AdminFormError: JavaScript's `length` counts UTF-16 code units, while the model counts characters.
- JSON bodies whose fields are numbers, booleans or objects: a request field is a string or absent.
- The seed script's file reads, JSON parsing, console logging and client disconnect: the files' parsed records are an input.
- Record keys and per-record `create` errors in the seeding loop: a record is an opaque row appended to its table.
- Seed.StripExtension: directory parts and trailing separators of a path are not modelled, because the script passes bare file names.
- Seed.Capitalize: cases other than ASCII letters are not modelled, because `toUpperCase` follows Unicode case mapping; every file name in the script starts with an ASCII letter.
- Password hashing and server-side authorization: the code has neither.
- Seed.Database: the ORM client's name lookup is exact map lookup, one name per table. A client that also answers a table under its capitalised model name would alias two names to one table; that is not modelled. Under such a client `deleteAllData` as written would clear the tables, and the deletion finding would not apply.

## Findings

| source | as written | input that shows it | evidently intended | confidence | as-written member | corrected member |
|---|---|---|---|---|---|---|
| server/prisma/seed.ts:8-14 | `deleteAllData` looks each table up under its file name with the first letter upper-cased (`prisma["Products"]`). The seeding loop uses the lower-camel-case name (`prisma["products"]`, line 71). This is a finding only if the ORM client answers a table under its lower-camel-case accessor alone; no file of the repository shows how the client resolves names | A run of the seed against a client that answers only `products`, `expenseSummary`, …, `expenseByCategory`. Under that premise every deletion name is reported missing, no table is cleared, and the seeding loop adds its records on top of the old rows, or, when a record repeats an old row's key, the first such create fails and ends the script | Clear every table the seeding loop fills, in reverse file order | low, not executed; depends on the ORM's name lookup | Seed.DeletionMissesLowerCamelAccessors | Seed.Database.DeleteAllDataIntended |
