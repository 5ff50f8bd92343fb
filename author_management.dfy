/**
 * The admin author list: verification status, the search-plus-status filter,
 * status updates by id, the Verify/Suspend offer rule and the stat cards.
 */
module AuthorManagement {
  import opened Wrappers
  import opened Seqs
  import opened Text

  datatype AuthorStatus = Verified | Pending | Suspended

  /** The string a status is stored and compared as. */
  function StatusName(s: AuthorStatus): (name: string)
    ensures name in ["verified", "pending", "suspended"]
  {
    match s
    case Verified => "verified"
    case Pending => "pending"
    case Suspended => "suspended"
  }

  datatype Author = Author(id: int, name: string, email: string, avatar: string, bio: string,
                           articlesCount: int, followersCount: int, totalViews: int, rating: real,
                           joinDate: string, status: AuthorStatus, specialization: string)

  /** The four authors the page loads on mount. */
  const MockAuthors: seq<Author> := [
    Author(1, "John Doe", "john@example.com",
           "https://images.unsplash.com/photo-1472099645785-5658abf4ff4e?w=40&h=40&fit=crop&crop=face",
           "Full-stack developer with 5+ years of experience", 24, 1250, 45000, 4.8,
           "2023-06-15", Verified, "Web Development"),
    Author(2, "Jane Smith", "jane@example.com",
           "https://images.unsplash.com/photo-1438761681033-6461ffad8d80?w=40&h=40&fit=crop&crop=face",
           "UI/UX Designer passionate about user-centered design", 18, 890, 32000, 4.6,
           "2023-08-20", Verified, "Design"),
    Author(3, "Mike Johnson", "mike@example.com",
           "https://images.unsplash.com/photo-1507003211169-0a1dd7228f2d?w=40&h=40&fit=crop&crop=face",
           "Backend engineer specializing in scalable systems", 15, 670, 28000, 4.4,
           "2023-09-10", Pending, "Backend"),
    Author(4, "Sarah Wilson", "sarah@example.com",
           "https://images.unsplash.com/photo-1494790108755-2616b332c8c2?w=40&h=40&fit=crop&crop=face",
           "Data scientist and AI enthusiast", 12, 445, 19000, 4.2,
           "2023-10-05", Verified, "Data Science")
  ]

  /** The search box matches the name, the email or the specialization, ignoring case. */
  predicate MatchesSearch(a: Author, term: string) {
    IncludesIgnoringCase(a.name, term) || IncludesIgnoringCase(a.email, term)
    || IncludesIgnoringCase(a.specialization, term)
  }

  function SearchFor(term: string): Author -> bool {
    (a: Author) => MatchesSearch(a, term)
  }

  function InFacet(facet: string): Author -> bool {
    (a: Author) => StatusName(a.status) == facet
  }

  /** `filterAuthors`: the search applies only to a non-empty term, the facet only when it is not "all". */
  function FilteredAuthors(authors: seq<Author>, term: string, facet: string): seq<Author> {
    var searched := if term != "" then Filter(authors, SearchFor(term)) else authors;
    if facet != "all" then Filter(searched, InFacet(facet)) else searched
  }

  /**
   * The filter keeps the list's order and keeps an author exactly when they
   * pass the search (or the term is empty) and the facet (or the facet is "all").
   */
  lemma FilteredAuthorsSpec(authors: seq<Author>, term: string, facet: string)
    ensures IsSubseq(FilteredAuthors(authors, term, facet), authors)
    ensures forall a :: a in FilteredAuthors(authors, term, facet) <==>
              a in authors && (term == "" || MatchesSearch(a, term))
              && (facet == "all" || StatusName(a.status) == facet)
  {
    var searched := if term != "" then Filter(authors, SearchFor(term)) else authors;
    if term != "" {
      FilterIsSubseq(authors, SearchFor(term));
      FilterMembers(authors, SearchFor(term));
    } else {
      IsSubseqReflexive(authors);
    }
    if facet != "all" {
      FilterIsSubseq(searched, InFacet(facet));
      FilterMembers(searched, InFacet(facet));
      IsSubseqTransitive(FilteredAuthors(authors, term, facet), searched, authors);
    }
  }

  /** The filter keeps every copy of an author that passes, and no copy of one that fails. */
  lemma FilteredAuthorsMultiplicity(authors: seq<Author>, term: string, facet: string)
    ensures forall a :: multiset(FilteredAuthors(authors, term, facet))[a] ==
              if (term == "" || MatchesSearch(a, term)) && (facet == "all" || StatusName(a.status) == facet)
              then multiset(authors)[a] else 0
  {
    var searched := if term != "" then Filter(authors, SearchFor(term)) else authors;
    if term != "" {
      FilterMultiplicity(authors, SearchFor(term));
    }
    if facet != "all" {
      FilterMultiplicity(searched, InFacet(facet));
    }
  }

  function SetStatusOf(id: int, s: AuthorStatus): Author -> Author {
    (a: Author) => if a.id == id then a.(status := s) else a
  }

  /** `handleStatusUpdate`: the authors with the given id get the new status. */
  function WithStatus(authors: seq<Author>, id: int, s: AuthorStatus): seq<Author> {
    Map(authors, SetStatusOf(id, s))
  }

  /** Length, order, ids and every other field survive; only the target's status changes. */
  lemma WithStatusSpec(authors: seq<Author>, id: int, s: AuthorStatus)
    ensures |WithStatus(authors, id, s)| == |authors|
    ensures forall i :: 0 <= i < |authors| ==> WithStatus(authors, id, s)[i].id == authors[i].id
    ensures forall i :: 0 <= i < |authors| && authors[i].id == id ==>
              WithStatus(authors, id, s)[i] == authors[i].(status := s)
    ensures forall i :: 0 <= i < |authors| && authors[i].id != id ==> WithStatus(authors, id, s)[i] == authors[i]
  {
  }

  /** The button a row shows: Verify for a pending author, Suspend for a verified one, none for a suspended one. */
  function OfferedAction(s: AuthorStatus): (target: Option<AuthorStatus>)
    ensures target.Some? ==> target.value != Pending && target.value != s
  {
    match s
    case Pending => Some(Verified)
    case Verified => Some(Suspended)
    case Suspended => None
  }

  /** Each button appears for exactly one status, and suspension is final. */
  lemma OfferRule(s: AuthorStatus)
    ensures OfferedAction(s) == Some(Verified) <==> s == Pending
    ensures OfferedAction(s) == Some(Suspended) <==> s == Verified
    ensures OfferedAction(s) == None <==> s == Suspended
  {
  }

  /** Following offered buttons from any status reaches suspended within two steps and stops there. */
  lemma OfferedPathsEnd(s: AuthorStatus)
    ensures OfferedAction(s).Some? && OfferedAction(OfferedAction(s).value).Some? ==>
            OfferedAction(OfferedAction(s).value).value == Suspended
            && OfferedAction(Suspended).None?
  {
  }

  function ArticlesOf(a: Author): int { a.articlesCount }

  function ViewsOf(a: Author): int { a.totalViews }

  /** `authors.reduce((sum, a) => sum + a.articlesCount, 0)`. */
  function TotalArticles(authors: seq<Author>): int {
    Sum(authors, ArticlesOf)
  }

  /** `authors.reduce((sum, a) => sum + a.totalViews, 0)`, before the thousands formatting. */
  function TotalViews(authors: seq<Author>): int {
    Sum(authors, ViewsOf)
  }

  /** A status update moves no articles or views between authors: the totals stay. */
  lemma {:induction false} TotalsIgnoreStatus(authors: seq<Author>, id: int, s: AuthorStatus)
    ensures TotalArticles(WithStatus(authors, id, s)) == TotalArticles(authors)
    ensures TotalViews(WithStatus(authors, id, s)) == TotalViews(authors)
    decreases |authors|
  {
    if authors != [] {
      TotalsIgnoreStatus(authors[1..], id, s);
      assert WithStatus(authors, id, s)[1..] == WithStatus(authors[1..], id, s);
    }
  }

  /** The total adds every author's own count: appending an author adds theirs. */
  lemma {:induction false} TotalArticlesSnoc(authors: seq<Author>, a: Author)
    ensures TotalArticles(authors + [a]) == TotalArticles(authors) + a.articlesCount
    decreases |authors|
  {
    if authors == [] {
      assert authors + [a] == [a];
    } else {
      assert (authors + [a])[1..] == authors[1..] + [a];
      TotalArticlesSnoc(authors[1..], a);
    }
  }

  function IsVerified(a: Author): bool { a.status == Verified }

  /** `authors.filter(a => a.status === 'verified').length`, as on the stat card. */
  function VerifiedCount(authors: seq<Author>): (n: nat)
    ensures n <= |authors|
  {
    |Filter(authors, IsVerified)|
  }

  /** Verifying a pending author with a unique id raises the verified card by exactly one. */
  lemma {:induction false} VerifyRaisesCount(authors: seq<Author>, i: nat)
    requires i < |authors| && authors[i].status == Pending
    requires forall j :: 0 <= j < |authors| && j != i ==> authors[j].id != authors[i].id
    ensures VerifiedCount(WithStatus(authors, authors[i].id, Verified)) == VerifiedCount(authors) + 1
    decreases |authors|
  {
    var id := authors[i].id;
    var r := WithStatus(authors, id, Verified);
    assert r[1..] == WithStatus(authors[1..], id, Verified);
    if i == 0 {
      AbsentIdUnchanged(authors[1..], id, Verified);
    } else {
      VerifyRaisesCount(authors[1..], i - 1);
      assert r[0] == authors[0];
    }
  }

  /** Updating an id no author carries leaves the list as it was. */
  lemma AbsentIdUnchanged(authors: seq<Author>, id: int, s: AuthorStatus)
    requires forall j :: 0 <= j < |authors| ==> authors[j].id != id
    ensures WithStatus(authors, id, s) == authors
  {
  }

  /** The component's state: the loaded list, the visible list, the search term and the facet. */
  class AuthorManager {
    var authors: seq<Author>
    var filteredAuthors: seq<Author>
    var searchTerm: string
    var statusFilter: string

    /** The visible list is the filter of the current list. */
    predicate Valid()
      reads this
    {
      filteredAuthors == FilteredAuthors(authors, searchTerm, statusFilter)
    }

    constructor ()
      ensures authors == [] && filteredAuthors == [] && searchTerm == "" && statusFilter == "all"
      ensures Valid()
    {
      authors, filteredAuthors := [], [];
      searchTerm, statusFilter := "", "all";
    }

    /** `filterAuthors`, narrowing a local copy one condition at a time. */
    method ApplyFilter()
      modifies this
      ensures filteredAuthors == FilteredAuthors(authors, searchTerm, statusFilter)
      ensures authors == old(authors) && searchTerm == old(searchTerm) && statusFilter == old(statusFilter)
      ensures Valid()
    {
      var filtered := authors;
      if searchTerm != "" {
        filtered := Filter(filtered, SearchFor(searchTerm));
      }
      if statusFilter != "all" {
        filtered := Filter(filtered, InFacet(statusFilter));
      }
      filteredAuthors := filtered;
    }

    /** `loadAuthors`, then the filter effect. */
    method LoadAuthors()
      modifies this
      ensures authors == MockAuthors
      ensures searchTerm == old(searchTerm) && statusFilter == old(statusFilter)
      ensures Valid()
    {
      authors := MockAuthors;
      ApplyFilter();
    }

    method SetSearchTerm(term: string)
      modifies this
      ensures searchTerm == term
      ensures authors == old(authors) && statusFilter == old(statusFilter)
      ensures Valid()
    {
      searchTerm := term;
      ApplyFilter();
    }

    method SetStatusFilter(facet: string)
      modifies this
      ensures statusFilter == facet
      ensures authors == old(authors) && searchTerm == old(searchTerm)
      ensures Valid()
    {
      statusFilter := facet;
      ApplyFilter();
    }

    /** `handleStatusUpdate`: only verification and suspension are passed in. */
    method HandleStatusUpdate(id: int, s: AuthorStatus)
      requires s == Verified || s == Suspended
      modifies this
      ensures authors == WithStatus(old(authors), id, s)
      ensures searchTerm == old(searchTerm) && statusFilter == old(statusFilter)
      ensures Valid()
    {
      authors := WithStatus(authors, id, s);
      ApplyFilter();
    }
  }
}
