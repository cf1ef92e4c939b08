/** The client's global session slice: two UI preferences, the signed-in
    admin (or none) and the derived authentication flag. `Reduce` is the
    slice's reducer as a function of the state and the action; `Store` is the
    slice's state object, whose reducer methods assign its fields in place. */
module GlobalState {
  import opened Common

  datatype State = State(
    isSidebarCollapsed: bool,
    isDarkMode: bool,
    admin: Option<AdminProfile>,
    isAuthenticated: bool)

  datatype Action =
    | SetIsSidebarCollapsed(collapsed: bool)
    | SetIsDarkMode(dark: bool)
    | SetAdmin(payload: Option<AdminProfile>)
    | Logout

  /** The session invariant: authenticated exactly when an admin is held. */
  predicate Consistent(s: State) {
    s.isAuthenticated == s.admin.Some?
  }

  /** The slice's initial state. */
  function InitialState(): (s: State)
    ensures Consistent(s)
    ensures !s.isSidebarCollapsed && !s.isDarkMode && s.admin.None? && !s.isAuthenticated
  {
    State(false, false, None, false)
  }

  /** The slice reducer. */
  function Reduce(s: State, a: Action): (r: State)
    ensures Consistent(s) ==> Consistent(r)
    ensures a.SetAdmin? || a.Logout? ==>
              && Consistent(r)
              && r.isSidebarCollapsed == s.isSidebarCollapsed
              && r.isDarkMode == s.isDarkMode
    ensures a.SetAdmin? && a.payload.Some? ==> r.admin == a.payload && r.isAuthenticated
    ensures a.Logout? ==> r.admin.None? && !r.isAuthenticated
    ensures a.SetIsSidebarCollapsed? ==> r == s.(isSidebarCollapsed := a.collapsed)
    ensures a.SetIsDarkMode? ==> r == s.(isDarkMode := a.dark)
  {
    match a
    case SetIsSidebarCollapsed(b) => s.(isSidebarCollapsed := b)
    case SetIsDarkMode(b) => s.(isDarkMode := b)
    case SetAdmin(p) => s.(admin := p, isAuthenticated := p.Some?)
    case Logout => s.(admin := None, isAuthenticated := false)
  }

  /** The state after dispatching a sequence of actions in order. */
  function Run(s: State, actions: seq<Action>): State
    decreases |actions|
  {
    if actions == [] then s else Run(Reduce(s, actions[0]), actions[1..])
  }

  /** Every state reachable from a consistent one keeps the invariant; in
      particular every state the client ever holds, since it starts from
      `InitialState()`. */
  lemma {:induction false} RunKeepsConsistent(s: State, actions: seq<Action>)
    requires Consistent(s)
    ensures Consistent(Run(s, actions))
    decreases |actions|
  {
    if actions != [] {
      RunKeepsConsistent(Reduce(s, actions[0]), actions[1..]);
    }
  }

  /** Dispatching two batches of actions is dispatching their concatenation. */
  lemma {:induction false} RunConcat(s: State, xs: seq<Action>, ys: seq<Action>)
    ensures Run(s, xs + ys) == Run(Run(s, xs), ys)
    decreases |xs|
  {
    if xs == [] {
      assert xs + ys == ys;
    } else {
      assert (xs + ys)[0] == xs[0] && (xs + ys)[1..] == xs[1..] + ys;
      RunConcat(Reduce(s, xs[0]), xs[1..], ys);
    }
  }

  /** Preference actions never touch the session, whatever their number. */
  lemma {:induction false} PreferencesKeepSession(s: State, actions: seq<Action>)
    requires forall i :: 0 <= i < |actions| ==> actions[i].SetIsSidebarCollapsed? || actions[i].SetIsDarkMode?
    ensures Run(s, actions).admin == s.admin
    ensures Run(s, actions).isAuthenticated == s.isAuthenticated
    decreases |actions|
  {
    if actions != [] {
      PreferencesKeepSession(Reduce(s, actions[0]), actions[1..]);
    }
  }

  /** Logging out twice is logging out once. */
  lemma LogoutIdempotent(s: State)
    ensures Reduce(Reduce(s, Logout), Logout) == Reduce(s, Logout)
  {
  }

  /** `setAdmin(null)` is `logout`. */
  lemma SetAdminNoneIsLogout(s: State)
    ensures Reduce(s, SetAdmin(None)) == Reduce(s, Logout)
  {
  }

  /** The slice's state object. */
  class Store {
    var isSidebarCollapsed: bool
    var isDarkMode: bool
    var admin: Option<AdminProfile>
    var isAuthenticated: bool

    function Snapshot(): State
      reads this
    {
      State(isSidebarCollapsed, isDarkMode, admin, isAuthenticated)
    }

    ghost predicate Valid()
      reads this
    {
      Consistent(Snapshot())
    }

    constructor ()
      ensures Snapshot() == InitialState() && Valid()
    {
      isSidebarCollapsed, isDarkMode, admin, isAuthenticated := false, false, None, false;
    }

    method SetIsSidebarCollapsed(collapsed: bool)
      modifies this
      ensures Snapshot() == Reduce(old(Snapshot()), Action.SetIsSidebarCollapsed(collapsed))
      ensures old(Valid()) ==> Valid()
    {
      isSidebarCollapsed := collapsed;
    }

    method SetIsDarkMode(dark: bool)
      modifies this
      ensures Snapshot() == Reduce(old(Snapshot()), Action.SetIsDarkMode(dark))
      ensures old(Valid()) ==> Valid()
    {
      isDarkMode := dark;
    }

    method SetAdmin(payload: Option<AdminProfile>)
      modifies this
      ensures Snapshot() == Reduce(old(Snapshot()), Action.SetAdmin(payload))
      ensures Valid() && admin == payload
      ensures isSidebarCollapsed == old(isSidebarCollapsed) && isDarkMode == old(isDarkMode)
    {
      admin := payload;
      isAuthenticated := payload.Some?;
    }

    method Logout()
      modifies this
      ensures Snapshot() == Reduce(old(Snapshot()), Action.Logout)
      ensures Valid() && admin.None? && !isAuthenticated
      ensures isSidebarCollapsed == old(isSidebarCollapsed) && isDarkMode == old(isDarkMode)
    {
      admin := None;
      isAuthenticated := false;
    }
  }
}
