/** The sign-in page of the client: its submit handler, which validates the
    two fields, sends the credentials, and on success stores the admin in the
    session and navigates to the dashboard. The server's reply is an input;
    the navigation is returned rather than performed. */
module SigninPage {
  import opened Common
  import GlobalState

  const MSG_FILL_ALL := "Please fill in all fields"
  const MSG_INVALID := "Invalid email or password"
  const MSG_SIGNIN_FAILED := "Sign in failed"
  const DASHBOARD_PATH := "/dashboard"

  /** The payload of a fulfilled sign-in: `{ success, admin }`. */
  datatype SigninPayload = SigninPayload(success: bool, admin: AdminProfile)

  /** The mounted page's state. */
  class SigninPage {
    var email: string
    var password: string
    var errorMsg: string

    constructor ()
      ensures email == "" && password == "" && errorMsg == ""
    {
      email, password, errorMsg := "", "", "";
    }

    /** `handleSignin`. */
    method HandleSignin(store: GlobalState.Store, reply: MutationResult<SigninPayload>)
      returns (sent: Option<SigninRequest>, navigate: Option<string>)
      modifies this, store
      ensures email == old(email) && password == old(password)
      ensures old(store.Valid()) ==> store.Valid()
      ensures email == "" || password == "" ==>
                && errorMsg == MSG_FILL_ALL && sent.None? && navigate.None?
                && store.Snapshot() == old(store.Snapshot())
      ensures email != "" && password != "" ==> sent == Some(SigninRequest(Some(email), Some(password)))
      ensures sent.Some? && reply.Fulfilled? && reply.payload.success ==>
                && store.Snapshot() == GlobalState.Reduce(old(store.Snapshot()), GlobalState.SetAdmin(Some(reply.payload.admin)))
                && navigate == Some(DASHBOARD_PATH) && errorMsg == ""
      ensures sent.Some? && reply.Fulfilled? && !reply.payload.success ==>
                && store.Snapshot() == old(store.Snapshot()) && navigate.None? && errorMsg == ""
      ensures sent.Some? && reply.Rejected? ==>
                && store.Snapshot() == old(store.Snapshot()) && navigate.None? && errorMsg == MSG_INVALID
    {
      errorMsg := "";
      navigate := None;
      if email == "" || password == "" {
        errorMsg := MSG_FILL_ALL;
        return None, None;
      }
      sent := Some(SigninRequest(Some(email), Some(password)));
      match reply {
        case Fulfilled(result) =>
          if result.success {
            store.SetAdmin(Some(result.admin));
            navigate := Some(DASHBOARD_PATH);
          }
        case Rejected(_) =>
          errorMsg := MSG_INVALID;
      }
    }

    /** The effect on the mutation's error state: when the last sign-in
        request failed, show the server's message or a generic one. */
    method ErrorEffect(lastError: Option<Option<string>>)
      modifies this
      ensures email == old(email) && password == old(password)
      ensures lastError.None? ==> errorMsg == old(errorMsg)
      ensures lastError.Some? ==> errorMsg == OrElse(lastError.value, MSG_SIGNIN_FAILED)
    {
      if lastError.Some? {
        errorMsg := OrElse(lastError.value, MSG_SIGNIN_FAILED);
      }
    }
  }
}
