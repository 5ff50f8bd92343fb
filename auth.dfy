/**
 * The mock sign-in page: the form, the fixed table of development
 * credentials, and the submit handler that writes the session record.
 */
module Auth {
  import opened Wrappers
  import opened Text
  import opened Session
  import AdminSidebar

  /** One development login: an email, its password and the role's display name. */
  datatype Credential = Credential(email: string, password: string, role: string)

  const DevCredentials: seq<Credential> := [
    Credential("admin@indublog.com", "admin123", "Super Admin"),
    Credential("editor@indublog.com", "editor123", "Editor"),
    Credential("viewer@indublog.com", "viewer123", "Viewer")
  ]

  predicate Matches(c: Credential, email: string, password: string) {
    c.email == email && c.password == password
  }

  /** The position `find` stops at: the first matching entry, or `|creds|` when none matches. */
  function FindIndex(creds: seq<Credential>, email: string, password: string): (k: nat)
    ensures k <= |creds|
    ensures k < |creds| ==> Matches(creds[k], email, password)
    ensures forall j :: 0 <= j < k ==> !Matches(creds[j], email, password)
    decreases |creds|
  {
    if creds == [] then 0
    else if Matches(creds[0], email, password) then 0
    else 1 + FindIndex(creds[1..], email, password)
  }

  /**
   * `creds.find(c => c.email === email && c.password === password)`: some entry
   * exactly when one matches both fields, and then the first of them.
   */
  function FindCredential(creds: seq<Credential>, email: string, password: string): (r: Option<Credential>)
    ensures r.Some? <==> exists i :: 0 <= i < |creds| && Matches(creds[i], email, password)
    ensures r.Some? ==> exists i :: 0 <= i < |creds| && creds[i] == r.value && Matches(r.value, email, password)
                          && forall j :: 0 <= j < i ==> !Matches(creds[j], email, password)
  {
    var k := FindIndex(creds, email, password);
    if k < |creds| then Some(creds[k]) else None
  }

  /** `role.toLowerCase().replace(' ', '_')`: the role string stored in the session. */
  function NormaliseRole(role: string): string {
    ReplaceFirst(Lower(role), ' ', '_')
  }

  lemma LowerSuperAdmin()
    ensures Lower("Super Admin") == "super admin"
  {
  }

  lemma ReplaceSuperAdmin()
    ensures ReplaceFirst("super admin", ' ', '_') == "super_admin"
  {
    assert "super admin" == "super" + [' '] + "admin";
    assert ' ' !in "super";
    ReplaceFirstAfter("super", ' ', '_', "admin");
    assert "super" + ['_'] + "admin" == "super_admin";
  }

  lemma NormalisedSuperAdmin()
    ensures NormaliseRole("Super Admin") == "super_admin"
  {
    LowerSuperAdmin();
    ReplaceSuperAdmin();
  }

  lemma NormalisedEditor()
    ensures NormaliseRole("Editor") == "editor"
  {
    assert Lower("Editor") == "editor";
    assert ' ' !in "editor";
  }

  lemma NormalisedViewer()
    ensures NormaliseRole("Viewer") == "viewer"
  {
    assert Lower("Viewer") == "viewer";
    assert ' ' !in "viewer";
  }

  /** The three display names normalise to the role strings the sidebar's allow-lists use. */
  lemma NormalisedRoles()
    ensures NormaliseRole("Super Admin") == "super_admin"
    ensures NormaliseRole("Editor") == "editor"
    ensures NormaliseRole("Viewer") == "viewer"
  {
    NormalisedSuperAdmin();
    NormalisedEditor();
    NormalisedViewer();
  }

  /** The sidebar shows each of the three stored roles under its table name. */
  lemma DisplayedRoles()
    ensures AdminSidebar.RoleDisplayName("super_admin") == "Super Admin"
    ensures AdminSidebar.RoleDisplayName("editor") == "Editor"
    ensures AdminSidebar.RoleDisplayName("viewer") == "Viewer"
  {
  }

  /** Each table role, stored and shown again, reads as itself. */
  lemma RoleRoundTripOf(role: string)
    requires role == "Super Admin" || role == "Editor" || role == "Viewer"
    ensures AdminSidebar.RoleDisplayName(NormaliseRole(role)) == role
  {
    DisplayedRoles();
    if role == "Super Admin" {
      NormalisedSuperAdmin();
    } else if role == "Editor" {
      NormalisedEditor();
    } else {
      NormalisedViewer();
    }
  }

  /** Storing the normalised role and showing it in the sidebar gives back the table's display name. */
  lemma RoleRoundTrip()
    ensures forall c :: c in DevCredentials ==> AdminSidebar.RoleDisplayName(NormaliseRole(c.role)) == c.role
  {
    forall c | c in DevCredentials
      ensures AdminSidebar.RoleDisplayName(NormaliseRole(c.role)) == c.role
    {
      assert c.role == "Super Admin" || c.role == "Editor" || c.role == "Viewer";
      RoleRoundTripOf(c.role);
    }
  }

  /** The record a successful sign-in stores. */
  function SessionFor(c: Credential): CurrentUser {
    CurrentUser(c.email, NormaliseRole(c.role), true)
  }

  /** Every development entry signs in as itself: no earlier entry shares its email and password. */
  lemma DevCredentialSignsIn(i: nat)
    requires i < |DevCredentials|
    ensures FindCredential(DevCredentials, DevCredentials[i].email, DevCredentials[i].password) == Some(DevCredentials[i])
  {
    var c := DevCredentials[i];
    assert FindIndex(DevCredentials, c.email, c.password) == i;
  }

  /** No two development logins share an email. */
  lemma DistinctEmails()
    ensures forall j, k :: 0 <= j < k < |DevCredentials| ==> DevCredentials[j].email != DevCredentials[k].email
  {
    assert DevCredentials[0].email[0] == 'a';
    assert DevCredentials[1].email[0] == 'e';
    assert DevCredentials[2].email[0] == 'v';
  }

  /** A known email with any password other than its own is refused. */
  lemma WrongPasswordRefused(i: nat, pw: string)
    requires i < |DevCredentials| && pw != DevCredentials[i].password
    ensures FindCredential(DevCredentials, DevCredentials[i].email, pw) == None
  {
    DistinctEmails();
    var email := DevCredentials[i].email;
    forall j | 0 <= j < |DevCredentials|
      ensures !Matches(DevCredentials[j], email, pw)
    {
    }
  }

  /** The roles the development logins produce, as the sidebar sees them. */
  lemma DevSessionsSeeTheirItems()
    ensures AdminSidebar.VisibleItems(Some(SessionFor(DevCredentials[0]))) == AdminSidebar.NavigationItems
    ensures |AdminSidebar.VisibleItems(Some(SessionFor(DevCredentials[1])))| == 5
    ensures |AdminSidebar.VisibleItems(Some(SessionFor(DevCredentials[2])))| == 3
  {
    NormalisedRoles();
    AdminSidebar.SuperAdminSeesAll(SessionFor(DevCredentials[0]));
    AdminSidebar.EditorSees(SessionFor(DevCredentials[1]));
    AdminSidebar.ViewerSees(SessionFor(DevCredentials[2]));
  }

  /** The two inputs of the login form, as named by their `name` attribute. */
  datatype LoginField = EmailInput | PasswordInput

  datatype LoginForm = LoginForm(email: string, password: string)

  /** The sign-in page: form state, the `loading` flag, and the session store it writes. */
  class AuthPage {
    var formData: LoginForm
    var loading: bool
    const store: SessionStore

    constructor (store: SessionStore)
      ensures this.store == store && formData == LoginForm("", "") && !loading
    {
      this.store := store;
      formData := LoginForm("", "");
      loading := false;
    }

    /** Overwrites the field the event names and keeps the other. */
    method HandleInputChange(field: LoginField, value: string)
      modifies this
      ensures formData == match field
                          case EmailInput => old(formData).(email := value)
                          case PasswordInput => old(formData).(password := value)
      ensures loading == old(loading)
    {
      match field
      case EmailInput => formData := formData.(email := value);
      case PasswordInput => formData := formData.(password := value);
    }

    /** Fills both fields from a development entry. */
    method HandleDevCredentialClick(c: Credential)
      modifies this
      ensures formData == LoginForm(c.email, c.password)
      ensures loading == old(loading)
    {
      formData := LoginForm(c.email, c.password);
    }

    /**
     * Looks the form up in the development table. On a match the session record
     * is stored; otherwise the store is left as it was. `ok` is whether the page
     * goes on to the admin area. `loading` is cleared on both paths.
     */
    method HandleSubmit() returns (ok: bool)
      modifies this, store
      ensures ok == FindCredential(DevCredentials, formData.email, formData.password).Some?
      ensures ok ==> store.adminUser ==
                     Some(SessionFor(FindCredential(DevCredentials, formData.email, formData.password).value))
      ensures !ok ==> store.adminUser == old(store.adminUser)
      ensures formData == old(formData) && !loading
    {
      loading := true;
      var found := FindCredential(DevCredentials, formData.email, formData.password);
      ok := found.Some?;
      if found.Some? {
        store.SetItem(SessionFor(found.value));
      }
      loading := false;
    }
  }

  /** Clicking any development entry and submitting signs in with that entry's role. */
  method SignInWithDevCredential(page: AuthPage, i: nat) returns (ok: bool)
    requires i < |DevCredentials|
    modifies page, page.store
    ensures ok
    ensures page.store.adminUser == Some(SessionFor(DevCredentials[i]))
    ensures page.store.adminUser.value.role == NormaliseRole(DevCredentials[i].role)
  {
    page.HandleDevCredentialClick(DevCredentials[i]);
    DevCredentialSignsIn(i);
    ok := page.HandleSubmit();
  }
}
