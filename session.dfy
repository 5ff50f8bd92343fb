/**
 * The browser-side session: the record kept under the `adminUser` key of the
 * persistent key-value store, written by the sign-in page and read and
 * cleared by the admin sidebar.
 */
module Session {
  import opened Wrappers

  /** The stored record `{ email, role, isAuthenticated }`; `role` is the normalised role string. */
  datatype CurrentUser = CurrentUser(email: string, role: string, isAuthenticated: bool)

  /** The single `adminUser` slot; `None` when the key is absent. */
  class SessionStore {
    var adminUser: Option<CurrentUser>

    constructor ()
      ensures adminUser == None
    {
      adminUser := None;
    }

    /** `localStorage.setItem('adminUser', JSON.stringify(user))`. */
    method SetItem(user: CurrentUser)
      modifies this
      ensures adminUser == Some(user)
    {
      adminUser := Some(user);
    }

    /** `localStorage.removeItem('adminUser')`: removing an absent key is allowed and changes nothing. */
    method RemoveItem()
      modifies this
      ensures adminUser == None
    {
      adminUser := None;
    }
  }
}
