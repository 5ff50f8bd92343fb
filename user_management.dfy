/**
 * The admin user list: account status, the search-plus-status filter, status
 * updates by id, the Suspend/Activate button and the stat cards.
 */
module UserManagement {
  import opened Seqs
  import opened Text

  datatype UserStatus = Active | Suspended | Pending

  /** The string a status is stored and compared as. */
  function StatusName(s: UserStatus): (name: string)
    ensures name in ["active", "suspended", "pending"]
  {
    match s
    case Active => "active"
    case Suspended => "suspended"
    case Pending => "pending"
  }

  lemma StatusNameInjective(s: UserStatus, t: UserStatus)
    ensures StatusName(s) == StatusName(t) <==> s == t
  {
  }

  datatype User = User(id: int, name: string, email: string, avatar: string, status: UserStatus,
                       joinDate: string, lastActive: string, articlesCount: int, followersCount: int)

  /** The four users the page loads on mount. */
  const MockUsers: seq<User> := [
    User(1, "John Doe", "john@example.com",
         "https://images.unsplash.com/photo-1472099645785-5658abf4ff4e?w=40&h=40&fit=crop&crop=face",
         Active, "2024-01-15", "2024-01-20", 12, 245),
    User(2, "Jane Smith", "jane@example.com",
         "https://images.unsplash.com/photo-1438761681033-6461ffad8d80?w=40&h=40&fit=crop&crop=face",
         Active, "2024-01-10", "2024-01-19", 8, 189),
    User(3, "Mike Johnson", "mike@example.com",
         "https://images.unsplash.com/photo-1507003211169-0a1dd7228f2d?w=40&h=40&fit=crop&crop=face",
         Suspended, "2024-01-05", "2024-01-18", 3, 67),
    User(4, "Sarah Wilson", "sarah@example.com",
         "https://images.unsplash.com/photo-1494790108755-2616b332c8c2?w=40&h=40&fit=crop&crop=face",
         Pending, "2024-01-18", "2024-01-18", 0, 12)
  ]

  /** The search box matches the name or the email, ignoring case. */
  predicate MatchesSearch(u: User, term: string) {
    IncludesIgnoringCase(u.name, term) || IncludesIgnoringCase(u.email, term)
  }

  /** Two users with the same name and email match the same terms, whatever their other fields. */
  lemma SearchReadsNameAndEmailOnly(u: User, v: User, term: string)
    requires u.name == v.name && u.email == v.email
    ensures MatchesSearch(u, term) == MatchesSearch(v, term)
  {
  }

  function SearchFor(term: string): User -> bool {
    (u: User) => MatchesSearch(u, term)
  }

  function InFacet(facet: string): User -> bool {
    (u: User) => StatusName(u.status) == facet
  }

  /** `filterUsers`: the search applies only to a non-empty term, the facet only when it is not "all". */
  function FilteredUsers(users: seq<User>, term: string, facet: string): seq<User> {
    var searched := if term != "" then Filter(users, SearchFor(term)) else users;
    if facet != "all" then Filter(searched, InFacet(facet)) else searched
  }

  /**
   * The filter keeps the list's order and keeps a user exactly when they pass
   * the search (or the term is empty) and the facet (or the facet is "all").
   */
  lemma FilteredUsersSpec(users: seq<User>, term: string, facet: string)
    ensures IsSubseq(FilteredUsers(users, term, facet), users)
    ensures forall u :: u in FilteredUsers(users, term, facet) <==>
              u in users && (term == "" || MatchesSearch(u, term))
              && (facet == "all" || StatusName(u.status) == facet)
  {
    var searched := if term != "" then Filter(users, SearchFor(term)) else users;
    if term != "" {
      FilterIsSubseq(users, SearchFor(term));
      FilterMembers(users, SearchFor(term));
    } else {
      IsSubseqReflexive(users);
    }
    if facet != "all" {
      FilterIsSubseq(searched, InFacet(facet));
      FilterMembers(searched, InFacet(facet));
      IsSubseqTransitive(FilteredUsers(users, term, facet), searched, users);
    }
  }

  /** The filter keeps every copy of a user that passes, and no copy of one that fails. */
  lemma FilteredUsersMultiplicity(users: seq<User>, term: string, facet: string)
    ensures forall u :: multiset(FilteredUsers(users, term, facet))[u] ==
              if (term == "" || MatchesSearch(u, term)) && (facet == "all" || StatusName(u.status) == facet)
              then multiset(users)[u] else 0
  {
    var searched := if term != "" then Filter(users, SearchFor(term)) else users;
    if term != "" {
      FilterMultiplicity(users, SearchFor(term));
    }
    if facet != "all" {
      FilterMultiplicity(searched, InFacet(facet));
    }
  }

  /** With an empty term, a status facet keeps exactly the users with that status, in order. */
  lemma FacetKeepsExactlyThatStatus(users: seq<User>, s: UserStatus)
    ensures FilteredUsers(users, "", StatusName(s)) == Filter(users, HasStatus(s))
  {
    forall u | u in users
      ensures InFacet(StatusName(s))(u) == HasStatus(s)(u)
    {
      StatusNameInjective(u.status, s);
    }
    FilterCongruent(users, InFacet(StatusName(s)), HasStatus(s));
  }

  function SetStatusOf(id: int, s: UserStatus): User -> User {
    (u: User) => if u.id == id then u.(status := s) else u
  }

  /** `handleStatusUpdate`: the users with the given id get the new status. */
  function WithStatus(users: seq<User>, id: int, s: UserStatus): seq<User> {
    Map(users, SetStatusOf(id, s))
  }

  /** Length, order, ids and every other field survive; only the target's status changes. */
  lemma WithStatusSpec(users: seq<User>, id: int, s: UserStatus)
    ensures |WithStatus(users, id, s)| == |users|
    ensures forall i :: 0 <= i < |users| ==> WithStatus(users, id, s)[i].id == users[i].id
    ensures forall i :: 0 <= i < |users| && users[i].id == id ==>
              WithStatus(users, id, s)[i] == users[i].(status := s)
    ensures forall i :: 0 <= i < |users| && users[i].id != id ==> WithStatus(users, id, s)[i] == users[i]
  {
  }

  /** The one button a row shows: Suspend for an active user, Activate for any other. */
  function OfferedAction(s: UserStatus): (target: UserStatus)
    ensures target != Pending
    ensures target != s
    ensures target == Suspended <==> s == Active
  {
    if s == Active then Suspended else Active
  }

  /** Active and suspended toggle; a pending user is offered activation; twice from active is active. */
  lemma OfferedActionCycle(s: UserStatus)
    ensures OfferedAction(s) == Suspended <==> s == Active
    ensures OfferedAction(Pending) == Active
    ensures OfferedAction(OfferedAction(Active)) == Active
    ensures s != Pending ==> OfferedAction(OfferedAction(s)) == s
  {
  }

  /** Pressing the offered button for a user's row: that row now shows the opposite button. */
  lemma {:induction false} PressingOfferedButtonTwiceRestores(users: seq<User>, i: nat)
    requires i < |users| && users[i].status != Pending
    requires forall j :: 0 <= j < |users| && j != i ==> users[j].id != users[i].id
    ensures var once := WithStatus(users, users[i].id, OfferedAction(users[i].status));
            WithStatus(once, users[i].id, OfferedAction(once[i].status)) == users
  {
    var id := users[i].id;
    var once := WithStatus(users, id, OfferedAction(users[i].status));
    WithStatusSpec(users, id, OfferedAction(users[i].status));
    var twice := WithStatus(once, id, OfferedAction(once[i].status));
    WithStatusSpec(once, id, OfferedAction(once[i].status));
    OfferedActionCycle(users[i].status);
    assert forall j :: 0 <= j < |users| ==> twice[j] == users[j];
  }

  function HasStatus(s: UserStatus): User -> bool {
    (u: User) => u.status == s
  }

  /** `users.filter(u => u.status === s).length`, as on the stat cards. */
  function CountWithStatus(users: seq<User>, s: UserStatus): nat {
    |Filter(users, HasStatus(s))|
  }

  /** The active, suspended and pending cards add up to the total card. */
  lemma {:induction false} StatusCountsSum(users: seq<User>)
    ensures CountWithStatus(users, Active) + CountWithStatus(users, Suspended)
            + CountWithStatus(users, Pending) == |users|
    ensures forall s :: CountWithStatus(users, s) <= |users|
    decreases |users|
  {
    if users != [] {
      StatusCountsSum(users[1..]);
    }
  }

  /** The component's state: the loaded list, the visible list, the search term and the facet. */
  class UserManager {
    var users: seq<User>
    var filteredUsers: seq<User>
    var searchTerm: string
    var statusFilter: string

    /** The visible list is the filter of the current list. */
    predicate Valid()
      reads this
    {
      filteredUsers == FilteredUsers(users, searchTerm, statusFilter)
    }

    constructor ()
      ensures users == [] && filteredUsers == [] && searchTerm == "" && statusFilter == "all"
      ensures Valid()
    {
      users, filteredUsers := [], [];
      searchTerm, statusFilter := "", "all";
    }

    /** `filterUsers`, narrowing a local copy one condition at a time. */
    method ApplyFilter()
      modifies this
      ensures filteredUsers == FilteredUsers(users, searchTerm, statusFilter)
      ensures users == old(users) && searchTerm == old(searchTerm) && statusFilter == old(statusFilter)
      ensures Valid()
    {
      var filtered := users;
      if searchTerm != "" {
        filtered := Filter(filtered, SearchFor(searchTerm));
      }
      if statusFilter != "all" {
        filtered := Filter(filtered, InFacet(statusFilter));
      }
      filteredUsers := filtered;
    }

    /** `loadUsers`, then the filter effect. */
    method LoadUsers()
      modifies this
      ensures users == MockUsers
      ensures searchTerm == old(searchTerm) && statusFilter == old(statusFilter)
      ensures Valid()
    {
      users := MockUsers;
      ApplyFilter();
    }

    method SetSearchTerm(term: string)
      modifies this
      ensures searchTerm == term
      ensures users == old(users) && statusFilter == old(statusFilter)
      ensures Valid()
    {
      searchTerm := term;
      ApplyFilter();
    }

    method SetStatusFilter(facet: string)
      modifies this
      ensures statusFilter == facet
      ensures users == old(users) && searchTerm == old(searchTerm)
      ensures Valid()
    {
      statusFilter := facet;
      ApplyFilter();
    }

    /** `handleStatusUpdate`: only activation and suspension are passed in. */
    method HandleStatusUpdate(id: int, s: UserStatus)
      requires s == Active || s == Suspended
      modifies this
      ensures users == WithStatus(old(users), id, s)
      ensures searchTerm == old(searchTerm) && statusFilter == old(statusFilter)
      ensures Valid()
    {
      users := WithStatus(users, id, s);
      ApplyFilter();
    }
  }
}
