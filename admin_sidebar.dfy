/**
 * The admin sidebar: the role policy that decides which navigation links a
 * signed-in administrator sees, the rule that highlights the current link,
 * and the logout action.
 */
module AdminSidebar {
  import opened Wrappers
  import opened Seqs
  import opened Text
  import opened Session

  /** The badge text for a role string; unknown roles are shown as they are. */
  function RoleDisplayName(role: string): (name: string)
    ensures role == "super_admin" ==> name == "Super Admin"
    ensures role == "editor" ==> name == "Editor"
    ensures role == "viewer" ==> name == "Viewer"
    ensures role != "super_admin" && role != "editor" && role != "viewer" ==> name == role
  {
    match role
    case "super_admin" => "Super Admin"
    case "editor" => "Editor"
    case "viewer" => "Viewer"
    case _ => role
  }

  /**
   * No session sees nothing, whatever the allow-list; a session passes exactly
   * when its role string is on the list. The `isAuthenticated` flag is not read.
   */
  function CanAccess(user: Option<CurrentUser>, requiredRoles: seq<string>): (allowed: bool)
    ensures user.None? ==> !allowed
    ensures user.Some? ==> (allowed <==> user.value.role in requiredRoles)
  {
    match user
    case None => false
    case Some(u) => u.role in requiredRoles
  }

  /** Flipping `isAuthenticated` never changes an access decision. */
  lemma CanAccessIgnoresAuthenticatedFlag(u: CurrentUser, requiredRoles: seq<string>, flag: bool)
    ensures CanAccess(Some(u), requiredRoles) == CanAccess(Some(u.(isAuthenticated := flag)), requiredRoles)
  {
  }

  /** A sidebar entry: its label, its route, whether only the exact route highlights it, and who sees it. */
  datatype NavItem = NavItem(name: string, path: string, exact: bool, roles: seq<string>)

  const DashboardItem := NavItem("Dashboard", "/admin", true, ["super_admin", "editor", "viewer"])
  const BlogManagementItem := NavItem("Blog Management", "/admin/blogs", false, ["super_admin", "editor"])
  const UsersItem := NavItem("Users", "/admin/users", false, ["super_admin", "editor", "viewer"])
  const AuthorsItem := NavItem("Authors", "/admin/authors", false, ["super_admin", "editor", "viewer"])
  const AdminUsersItem := NavItem("Admin Users", "/admin/admin-users", false, ["super_admin"])
  const AnalyticsItem := NavItem("Analytics", "/admin/analytics", false, ["super_admin", "editor"])
  const SettingsItem := NavItem("Settings", "/admin/settings", false, ["super_admin"])

  /** The sidebar's entries, in display order. */
  const NavigationItems: seq<NavItem> :=
    [DashboardItem, BlogManagementItem, UsersItem, AuthorsItem, AdminUsersItem, AnalyticsItem, SettingsItem]

  function VisibleTo(user: Option<CurrentUser>): NavItem -> bool {
    (item: NavItem) => CanAccess(user, item.roles)
  }

  /** The entries the render loop keeps: those whose allow-list admits the current user. */
  function VisibleItems(user: Option<CurrentUser>): seq<NavItem> {
    Filter(NavigationItems, VisibleTo(user))
  }

  /** The visible entries are the navigation entries in their own order, minus some. */
  lemma VisibleItemsKeepOrder(user: Option<CurrentUser>)
    ensures IsSubseq(VisibleItems(user), NavigationItems)
  {
    FilterIsSubseq(NavigationItems, VisibleTo(user));
  }

  /** Without a session no entry is shown. */
  lemma NoSessionNoItems()
    ensures VisibleItems(None) == []
  {
    FilterNone(NavigationItems, VisibleTo(None));
  }

  /** A filter over a sequence of seven elements, element by element. */
  lemma FilterSeven<T>(s: seq<T>, p: T -> bool)
    requires |s| == 7
    ensures Filter(s, p) == Keep(s[0], p) + (Keep(s[1], p) + (Keep(s[2], p) + (Keep(s[3], p) +
                            (Keep(s[4], p) + (Keep(s[5], p) + Keep(s[6], p))))))
  {
    assert s[0..] == s;
    assert s[7..] == [];
    FilterThreeSteps(s, 0, p);
    FilterThreeSteps(s, 3, p);
    FilterStep(s, 6, p);
    assert Keep(s[6], p) + Filter(s[7..], p) == Keep(s[6], p);
  }

  /** `VisibleItems` written out entry by entry. */
  lemma VisibleItemsUnfold(user: Option<CurrentUser>)
    ensures VisibleItems(user) ==
      Keep(DashboardItem, VisibleTo(user)) + (Keep(BlogManagementItem, VisibleTo(user)) +
      (Keep(UsersItem, VisibleTo(user)) + (Keep(AuthorsItem, VisibleTo(user)) +
      (Keep(AdminUsersItem, VisibleTo(user)) + (Keep(AnalyticsItem, VisibleTo(user)) +
      Keep(SettingsItem, VisibleTo(user)))))))
  {
    FilterSeven(NavigationItems, VisibleTo(user));
  }

  lemma SuperAdminSeesAll(u: CurrentUser)
    requires u.role == "super_admin"
    ensures VisibleItems(Some(u)) == NavigationItems
  {
    FilterAll(NavigationItems, VisibleTo(Some(u)));
  }

  /** Which entries an editor's allow-list check keeps. */
  lemma EditorKeeps(u: CurrentUser)
    requires u.role == "editor"
    ensures Keep(DashboardItem, VisibleTo(Some(u))) == [DashboardItem]
    ensures Keep(BlogManagementItem, VisibleTo(Some(u))) == [BlogManagementItem]
    ensures Keep(UsersItem, VisibleTo(Some(u))) == [UsersItem]
    ensures Keep(AuthorsItem, VisibleTo(Some(u))) == [AuthorsItem]
    ensures Keep(AdminUsersItem, VisibleTo(Some(u))) == []
    ensures Keep(AnalyticsItem, VisibleTo(Some(u))) == [AnalyticsItem]
    ensures Keep(SettingsItem, VisibleTo(Some(u))) == []
  {
  }

  lemma EditorSees(u: CurrentUser)
    requires u.role == "editor"
    ensures VisibleItems(Some(u)) == [DashboardItem, BlogManagementItem, UsersItem, AuthorsItem, AnalyticsItem]
  {
    VisibleItemsUnfold(Some(u));
    EditorKeeps(u);
    assert [DashboardItem] + ([BlogManagementItem] + ([UsersItem] + ([AuthorsItem] + ([] + ([AnalyticsItem] + [])))))
        == [DashboardItem, BlogManagementItem, UsersItem, AuthorsItem, AnalyticsItem];
  }

  /** Which entries a viewer's allow-list check keeps. */
  lemma ViewerKeeps(u: CurrentUser)
    requires u.role == "viewer"
    ensures Keep(DashboardItem, VisibleTo(Some(u))) == [DashboardItem]
    ensures Keep(BlogManagementItem, VisibleTo(Some(u))) == []
    ensures Keep(UsersItem, VisibleTo(Some(u))) == [UsersItem]
    ensures Keep(AuthorsItem, VisibleTo(Some(u))) == [AuthorsItem]
    ensures Keep(AdminUsersItem, VisibleTo(Some(u))) == []
    ensures Keep(AnalyticsItem, VisibleTo(Some(u))) == []
    ensures Keep(SettingsItem, VisibleTo(Some(u))) == []
  {
  }

  lemma ViewerSees(u: CurrentUser)
    requires u.role == "viewer"
    ensures VisibleItems(Some(u)) == [DashboardItem, UsersItem, AuthorsItem]
  {
    VisibleItemsUnfold(Some(u));
    ViewerKeeps(u);
    assert [DashboardItem] + ([] + ([UsersItem] + ([AuthorsItem] + ([] + ([] + [])))))
        == [DashboardItem, UsersItem, AuthorsItem];
  }

  /** Each role sees a sub-list of what the role above it sees: viewer, then editor, then super admin. */
  lemma VisibilityMonotone(viewer: CurrentUser, editor: CurrentUser, admin: CurrentUser)
    requires viewer.role == "viewer" && editor.role == "editor" && admin.role == "super_admin"
    ensures IsSubseq(VisibleItems(Some(viewer)), VisibleItems(Some(editor)))
    ensures IsSubseq(VisibleItems(Some(editor)), VisibleItems(Some(admin)))
  {
    FilterMonotone(NavigationItems, VisibleTo(Some(viewer)), VisibleTo(Some(editor)));
    FilterMonotone(NavigationItems, VisibleTo(Some(editor)), VisibleTo(Some(admin)));
  }

  /** The highlight rule: an `exact` entry needs the very route, any other entry a route below its own. */
  function IsActive(item: NavItem, pathname: string): (active: bool)
    ensures item.exact ==> (active <==> pathname == item.path)
    ensures !item.exact ==> (active <==> item.path <= pathname)
  {
    if item.exact then pathname == item.path else StartsWith(pathname, item.path)
  }

  /**
   * An active entry pins down the route: the dashboard needs `/admin` itself,
   * every other entry needs the route to agree with its path on the two
   * characters after `/admin/`, which differ from entry to entry.
   */
  lemma ActiveRoute(i: nat, pathname: string)
    requires i < |NavigationItems| && IsActive(NavigationItems[i], pathname)
    ensures i == 0 ==> pathname == "/admin"
    ensures i != 0 ==> |pathname| >= 9 && pathname[7] == NavigationItems[i].path[7]
                       && pathname[8] == NavigationItems[i].path[8]
  {
    if i != 0 {
      var path := NavigationItems[i].path;
      assert |path| >= 9 && path <= pathname;
      assert pathname[7] == path[7] && pathname[8] == path[8];
    }
  }

  /** Whatever the route, at most one sidebar entry is highlighted. */
  lemma AtMostOneActive(pathname: string)
    ensures forall i, j :: 0 <= i < j < |NavigationItems| && IsActive(NavigationItems[i], pathname)
              ==> !IsActive(NavigationItems[j], pathname)
  {
    forall i, j | 0 <= i < j < |NavigationItems| && IsActive(NavigationItems[i], pathname)
      ensures !IsActive(NavigationItems[j], pathname)
    {
      if IsActive(NavigationItems[j], pathname) {
        ActiveRoute(i, pathname);
        ActiveRoute(j, pathname);
      }
    }
  }

  /** The sidebar component: the session it shows and the store it logs out of. */
  class Sidebar {
    var currentUser: Option<CurrentUser>
    const store: SessionStore

    constructor (store: SessionStore)
      ensures this.store == store && currentUser == None
    {
      this.store := store;
      currentUser := None;
    }

    /** The mount effect: adopt the stored record when the key is present. */
    method LoadCurrentUser()
      modifies this
      ensures currentUser == if store.adminUser.Some? then store.adminUser else old(currentUser)
    {
      if store.adminUser.Some? {
        currentUser := store.adminUser;
      }
    }

    /** Clears the stored session, whatever it held; a second logout finds it already empty. */
    method HandleLogout()
      modifies store
      ensures store.adminUser == None
      ensures currentUser == old(currentUser)
    {
      store.RemoveItem();
    }
  }
}
