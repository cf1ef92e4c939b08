/** The dashboard wrapper's route guard: what `DashboardLayout` renders for a
    path, and when its redirect effect sends the browser to the sign-in page.
    The component's own state is the `isHydrated` flag, set by an effect after
    the first render. */
module DashboardWrapper {
  import opened Common
  import GlobalState

  const SIGNIN_PATH := "/signin"

  /** What the layout renders in place of the page. */
  datatype View =
    | Children                                  // the page alone, no dashboard chrome
    | Loading
    | AccessDenied
    | Layout(theme: string, mainPadding: string) // sidebar, navbar and the page

  /** The pages a moderator may not open; matched by exact string equality. */
  predicate ModeratorRestricted(pathname: string) {
    pathname == "/users" || pathname == "/expenses"
  }

  function ThemeClass(isDarkMode: bool): string {
    if isDarkMode then "dark" else "light"
  }

  function MainPadding(isSidebarCollapsed: bool): string {
    if isSidebarCollapsed then "md:pl-24" else "md:pl-72"
  }

  /** The render decision of `DashboardLayout`. */
  function Render(pathname: string, isHydrated: bool, admin: Option<AdminProfile>,
                  isSidebarCollapsed: bool, isDarkMode: bool): (v: View)
    ensures pathname == SIGNIN_PATH ==> v == Children
    ensures v == Children <==> pathname == SIGNIN_PATH
    ensures v == Loading <==> pathname != SIGNIN_PATH && !isHydrated
    ensures v == AccessDenied <==>
              pathname != SIGNIN_PATH && isHydrated && IsModerator(admin) && ModeratorRestricted(pathname)
    ensures v.Layout? <==>
              pathname != SIGNIN_PATH && isHydrated && !(IsModerator(admin) && ModeratorRestricted(pathname))
    ensures v.Layout? ==>
              && v.mainPadding == (if isSidebarCollapsed then "md:pl-24" else "md:pl-72")
              && v.theme == (if isDarkMode then "dark" else "light")
  {
    if pathname == SIGNIN_PATH then Children
    else if !isHydrated then Loading
    else if IsModerator(admin) && ModeratorRestricted(pathname) then AccessDenied
    else Layout(ThemeClass(isDarkMode), MainPadding(isSidebarCollapsed))
  }

  /** The navigation the redirect effect issues, if any. */
  function RedirectTarget(isHydrated: bool, isAuthenticated: bool, pathname: string): (r: Option<string>)
    ensures r.Some? <==> isHydrated && !isAuthenticated && pathname != SIGNIN_PATH
    ensures r.Some? ==> r.value == SIGNIN_PATH
  {
    if isHydrated && !isAuthenticated && pathname != SIGNIN_PATH then Some(SIGNIN_PATH) else None
  }

  /** On the sign-in page nothing is guarded: the page is rendered bare and
      no redirect is issued, whatever the session holds. */
  lemma SigninBypassesGuard(isHydrated: bool, s: GlobalState.State)
    ensures Render(SIGNIN_PATH, isHydrated, s.admin, s.isSidebarCollapsed, s.isDarkMode) == Children
    ensures RedirectTarget(isHydrated, s.isAuthenticated, SIGNIN_PATH).None?
  {
  }

  /** Before hydration every guarded page shows Loading and nothing redirects. */
  lemma LoadingBeforeHydration(pathname: string, s: GlobalState.State)
    requires pathname != SIGNIN_PATH
    ensures Render(pathname, false, s.admin, s.isSidebarCollapsed, s.isDarkMode) == Loading
    ensures RedirectTarget(false, s.isAuthenticated, pathname).None?
  {
  }

  /** A super admin is never denied by the wrapper. */
  lemma SuperAdminNeverDenied(pathname: string, isHydrated: bool, admin: AdminProfile,
                              isSidebarCollapsed: bool, isDarkMode: bool)
    requires admin.role == SUPER_ADMIN
    ensures Render(pathname, isHydrated, Some(admin), isSidebarCollapsed, isDarkMode) != AccessDenied
  {
  }

  /** The restriction is an exact match: a sub-path of a restricted page is
      not restricted. */
  lemma RestrictionIsExact()
    ensures ModeratorRestricted("/users") && ModeratorRestricted("/expenses")
    ensures !ModeratorRestricted("/users/x") && !ModeratorRestricted("/expenses/")
  {
  }

  /** Denial never comes with a redirect when the session is consistent: a
      denied viewer holds an admin, hence is authenticated. */
  lemma DeniedNeverRedirects(pathname: string, isHydrated: bool, s: GlobalState.State)
    requires GlobalState.Consistent(s)
    requires Render(pathname, isHydrated, s.admin, s.isSidebarCollapsed, s.isDarkMode) == AccessDenied
    ensures RedirectTarget(isHydrated, s.isAuthenticated, pathname).None?
  {
  }

  /** A hydrated, signed-out visitor of a guarded page is sent to sign-in;
      the same render still shows the layout (the session holds no admin, so
      no role restriction applies) until the navigation lands. */
  lemma SignedOutIsRedirected(pathname: string, s: GlobalState.State)
    requires GlobalState.Consistent(s) && !s.isAuthenticated && pathname != SIGNIN_PATH
    ensures RedirectTarget(true, s.isAuthenticated, pathname) == Some(SIGNIN_PATH)
    ensures Render(pathname, true, s.admin, s.isSidebarCollapsed, s.isDarkMode).Layout?
  {
  }

  /** The mounted layout component and its hydration flag. */
  class DashboardLayout {
    var isHydrated: bool

    constructor ()
      ensures !isHydrated
    {
      isHydrated := false;
    }

    /** The mount effect: `setIsHydrated(true)`. */
    method HydrationEffect()
      modifies this
      ensures isHydrated
    {
      isHydrated := true;
    }

    /** The redirect effect of a render, which sees the `isHydrated` that
        render was given (`rendered`), not a later update: the `router.push`
        it makes. */
    method RedirectEffect(rendered: bool, store: GlobalState.Store, pathname: string) returns (push: Option<string>)
      ensures push == RedirectTarget(rendered, store.isAuthenticated, pathname)
      ensures push.Some? <==> rendered && !store.isAuthenticated && pathname != SIGNIN_PATH
    {
      push := None;
      if rendered && !store.isAuthenticated && pathname != SIGNIN_PATH {
        push := Some(SIGNIN_PATH);
      }
    }
  }

  /** The first render after mounting, then its effects in declaration
      order: the view is Loading, the hydration effect sets the flag, and the
      redirect effect, which sees the first render's flag, does nothing. The
      flag change causes a second render, whose redirect effect fires exactly
      for a signed-out visitor of a guarded page. */
  method MountSequence(store: GlobalState.Store, pathname: string)
    returns (first: View, push: Option<string>, second: View)
    requires pathname != SIGNIN_PATH
    ensures first == Loading
    ensures push == RedirectTarget(true, store.isAuthenticated, pathname)
    ensures second == Render(pathname, true, store.admin, store.isSidebarCollapsed, store.isDarkMode)
  {
    var layout := new DashboardLayout();
    var seen := layout.isHydrated;
    first := Render(pathname, seen, store.admin, store.isSidebarCollapsed, store.isDarkMode);
    layout.HydrationEffect();
    var none := layout.RedirectEffect(seen, store, pathname);
    assert none.None?;
    seen := layout.isHydrated;
    second := Render(pathname, seen, store.admin, store.isSidebarCollapsed, store.isDarkMode);
    push := layout.RedirectEffect(seen, store, pathname);
  }
}
