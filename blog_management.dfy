/**
 * The admin blog list: moderation status, the search-plus-status filter,
 * status updates and deletion by id, the actions offered per status and the
 * stat cards.
 */
module BlogManagement {
  import opened Seqs
  import opened Text

  datatype BlogStatus = Draft | Pending | Published | Rejected

  /** The string a status is stored and compared as. */
  function StatusName(s: BlogStatus): (name: string)
    ensures name in ["draft", "pending", "published", "rejected"]
    ensures name != "all"
  {
    match s
    case Draft => "draft"
    case Pending => "pending"
    case Published => "published"
    case Rejected => "rejected"
  }

  lemma StatusNameInjective(s: BlogStatus, t: BlogStatus)
    ensures StatusName(s) == StatusName(t) <==> s == t
  {
  }

  datatype Blog = Blog(id: int, title: string, author: string, authorAvatar: string,
                       category: string, status: BlogStatus, publishedDate: string,
                       views: int, likes: int, excerpt: string)

  /** The four blogs the page loads on mount. */
  const MockBlogs: seq<Blog> := [
    Blog(1, "Getting Started with React", "John Doe",
         "https://images.unsplash.com/photo-1472099645785-5658abf4ff4e?w=40&h=40&fit=crop&crop=face",
         "Technology", Pending, "2024-01-15", 1250, 45,
         "Learn the basics of React and start building modern web applications..."),
    Blog(2, "Advanced TypeScript Patterns", "Jane Smith",
         "https://images.unsplash.com/photo-1438761681033-6461ffad8d80?w=40&h=40&fit=crop&crop=face",
         "Programming", Published, "2024-01-12", 2340, 89,
         "Explore advanced TypeScript patterns and techniques for better code..."),
    Blog(3, "UI/UX Design Principles", "Mike Johnson",
         "https://images.unsplash.com/photo-1507003211169-0a1dd7228f2d?w=40&h=40&fit=crop&crop=face",
         "Design", Draft, "2024-01-10", 890, 23,
         "Essential design principles every designer should know..."),
    Blog(4, "Building Scalable APIs", "Sarah Wilson",
         "https://images.unsplash.com/photo-1494790108755-2616b332c8c2?w=40&h=40&fit=crop&crop=face",
         "Backend", Pending, "2024-01-08", 1567, 67,
         "Best practices for building scalable and maintainable APIs...")
  ]

  /** The search box matches the title, the author or the category, ignoring case. */
  predicate MatchesSearch(b: Blog, term: string) {
    IncludesIgnoringCase(b.title, term) || IncludesIgnoringCase(b.author, term)
    || IncludesIgnoringCase(b.category, term)
  }

  function SearchFor(term: string): Blog -> bool {
    (b: Blog) => MatchesSearch(b, term)
  }

  function InFacet(facet: string): Blog -> bool {
    (b: Blog) => StatusName(b.status) == facet
  }

  /** `filterBlogs`: the search applies only to a non-empty term, the facet only when it is not "all". */
  function FilteredBlogs(blogs: seq<Blog>, term: string, facet: string): seq<Blog> {
    var searched := if term != "" then Filter(blogs, SearchFor(term)) else blogs;
    if facet != "all" then Filter(searched, InFacet(facet)) else searched
  }

  /**
   * The filter keeps the list's order and keeps a blog exactly when it passes
   * the search (or the term is empty) and the facet (or the facet is "all").
   */
  lemma FilteredBlogsSpec(blogs: seq<Blog>, term: string, facet: string)
    ensures IsSubseq(FilteredBlogs(blogs, term, facet), blogs)
    ensures forall b :: b in FilteredBlogs(blogs, term, facet) <==>
              b in blogs && (term == "" || MatchesSearch(b, term))
              && (facet == "all" || StatusName(b.status) == facet)
  {
    var searched := if term != "" then Filter(blogs, SearchFor(term)) else blogs;
    if term != "" {
      FilterIsSubseq(blogs, SearchFor(term));
      FilterMembers(blogs, SearchFor(term));
    } else {
      IsSubseqReflexive(blogs);
    }
    if facet != "all" {
      FilterIsSubseq(searched, InFacet(facet));
      FilterMembers(searched, InFacet(facet));
      IsSubseqTransitive(FilteredBlogs(blogs, term, facet), searched, blogs);
    }
  }

  /** The filter keeps every copy of a blog that passes, and no copy of one that fails. */
  lemma FilteredBlogsMultiplicity(blogs: seq<Blog>, term: string, facet: string)
    ensures forall b :: multiset(FilteredBlogs(blogs, term, facet))[b] ==
              if (term == "" || MatchesSearch(b, term)) && (facet == "all" || StatusName(b.status) == facet)
              then multiset(blogs)[b] else 0
  {
    var searched := if term != "" then Filter(blogs, SearchFor(term)) else blogs;
    if term != "" {
      FilterMultiplicity(blogs, SearchFor(term));
    }
    if facet != "all" {
      FilterMultiplicity(searched, InFacet(facet));
    }
  }

  /** An empty search with the "all" facet shows the whole list. */
  lemma UnfilteredShowsAll(blogs: seq<Blog>)
    ensures FilteredBlogs(blogs, "", "all") == blogs
  {
  }

  /** A facet that names no status shows nothing. */
  lemma UnknownFacetShowsNothing(blogs: seq<Blog>, term: string, facet: string)
    requires facet !in ["all", "draft", "pending", "published", "rejected"]
    ensures FilteredBlogs(blogs, term, facet) == []
  {
    var searched := if term != "" then Filter(blogs, SearchFor(term)) else blogs;
    FilterNone(searched, InFacet(facet));
  }

  function SetStatusOf(id: int, s: BlogStatus): Blog -> Blog {
    (b: Blog) => if b.id == id then b.(status := s) else b
  }

  /** `handleStatusUpdate`: the blogs with the given id get the new status. */
  function WithStatus(blogs: seq<Blog>, id: int, s: BlogStatus): seq<Blog> {
    Map(blogs, SetStatusOf(id, s))
  }

  /** Length, order, ids and every other field survive; only the target's status changes. */
  lemma WithStatusSpec(blogs: seq<Blog>, id: int, s: BlogStatus)
    ensures |WithStatus(blogs, id, s)| == |blogs|
    ensures forall i :: 0 <= i < |blogs| ==> WithStatus(blogs, id, s)[i].id == blogs[i].id
    ensures forall i :: 0 <= i < |blogs| && blogs[i].id == id ==>
              WithStatus(blogs, id, s)[i] == blogs[i].(status := s)
    ensures forall i :: 0 <= i < |blogs| && blogs[i].id != id ==> WithStatus(blogs, id, s)[i] == blogs[i]
  {
  }

  /** Repeating the same update changes nothing more. */
  lemma WithStatusIdempotent(blogs: seq<Blog>, id: int, s: BlogStatus)
    ensures WithStatus(WithStatus(blogs, id, s), id, s) == WithStatus(blogs, id, s)
  {
  }

  /** After the update every blog with that id is found under the new status's facet. */
  lemma UpdatedBlogInFacet(blogs: seq<Blog>, id: int, s: BlogStatus, i: nat)
    requires i < |blogs| && blogs[i].id == id
    ensures blogs[i].(status := s) in FilteredBlogs(WithStatus(blogs, id, s), "", StatusName(s))
  {
    var r := WithStatus(blogs, id, s);
    assert r[i] == blogs[i].(status := s);
    assert r[i] in r;
    FilterMembers(r, InFacet(StatusName(s)));
  }

  function NotId(id: int): Blog -> bool {
    (b: Blog) => b.id != id
  }

  /** `handleDelete`: the list without the blogs that have the given id. */
  function WithoutBlog(blogs: seq<Blog>, id: int): seq<Blog> {
    Filter(blogs, NotId(id))
  }

  /** No blog with that id is left; every other blog stays, in its order. */
  lemma WithoutBlogSpec(blogs: seq<Blog>, id: int)
    ensures IsSubseq(WithoutBlog(blogs, id), blogs)
    ensures forall b :: b in WithoutBlog(blogs, id) ==> b.id != id
    ensures forall b :: b in blogs && b.id != id ==> b in WithoutBlog(blogs, id)
    ensures (forall b :: b in blogs ==> b.id != id) ==> WithoutBlog(blogs, id) == blogs
    ensures forall b :: multiset(WithoutBlog(blogs, id))[b] == if b.id != id then multiset(blogs)[b] else 0
  {
    FilterMultiplicity(blogs, NotId(id));
    FilterIsSubseq(blogs, NotId(id));
    FilterMembers(blogs, NotId(id));
    if forall b :: b in blogs ==> b.id != id {
      FilterAll(blogs, NotId(id));
    }
  }

  /** Deleting a blog makes an earlier status update of that blog irrelevant. */
  lemma {:induction false} DeleteAfterUpdate(blogs: seq<Blog>, id: int, s: BlogStatus)
    ensures WithoutBlog(WithStatus(blogs, id, s), id) == WithoutBlog(blogs, id)
    decreases |blogs|
  {
    if blogs != [] {
      DeleteAfterUpdate(blogs[1..], id, s);
      assert WithStatus(blogs, id, s)[1..] == WithStatus(blogs[1..], id, s);
    }
  }

  /** The row buttons of the table. */
  datatype BlogAction = Approve | Reject | Delete

  /** Approve and reject appear only on pending rows; delete on every row. */
  function OfferedActions(s: BlogStatus): (actions: seq<BlogAction>)
    ensures Delete in actions
  {
    if s == Pending then [Approve, Reject, Delete] else [Delete]
  }

  /** The status an approve or reject button passes to the update. */
  function ActionTarget(a: BlogAction): BlogStatus
    requires a != Delete
  {
    if a == Approve then Published else Rejected
  }

  /** Moderation is offered exactly for pending blogs and leads out of pending. */
  lemma ModerationOnlyWhenPending(s: BlogStatus, a: BlogAction)
    ensures a != Delete ==> (a in OfferedActions(s) <==> s == Pending)
    ensures a != Delete && a in OfferedActions(s) ==> ActionTarget(a) != Pending
  {
  }

  function HasStatus(s: BlogStatus): Blog -> bool {
    (b: Blog) => b.status == s
  }

  /** `blogs.filter(b => b.status === s).length`, as on the stat cards. */
  function CountWithStatus(blogs: seq<Blog>, s: BlogStatus): nat {
    |Filter(blogs, HasStatus(s))|
  }

  /** The per-status counts are bounded by the total and, over all four statuses, add up to it. */
  lemma {:induction false} StatusCountsSum(blogs: seq<Blog>)
    ensures CountWithStatus(blogs, Draft) + CountWithStatus(blogs, Pending)
            + CountWithStatus(blogs, Published) + CountWithStatus(blogs, Rejected) == |blogs|
    ensures forall s :: CountWithStatus(blogs, s) <= |blogs|
    decreases |blogs|
  {
    if blogs != [] {
      StatusCountsSum(blogs[1..]);
    }
  }

  /** The component's state: the loaded list, the visible list, the search term and the facet. */
  class BlogManager {
    var blogs: seq<Blog>
    var filteredBlogs: seq<Blog>
    var searchTerm: string
    var statusFilter: string

    /** The visible list is the filter of the current list. */
    predicate Valid()
      reads this
    {
      filteredBlogs == FilteredBlogs(blogs, searchTerm, statusFilter)
    }

    constructor ()
      ensures blogs == [] && filteredBlogs == [] && searchTerm == "" && statusFilter == "all"
      ensures Valid()
    {
      blogs, filteredBlogs := [], [];
      searchTerm, statusFilter := "", "all";
    }

    /** `filterBlogs`, narrowing a local copy one condition at a time. */
    method ApplyFilter()
      modifies this
      ensures filteredBlogs == FilteredBlogs(blogs, searchTerm, statusFilter)
      ensures blogs == old(blogs) && searchTerm == old(searchTerm) && statusFilter == old(statusFilter)
      ensures Valid()
    {
      var filtered := blogs;
      if searchTerm != "" {
        filtered := Filter(filtered, SearchFor(searchTerm));
      }
      if statusFilter != "all" {
        filtered := Filter(filtered, InFacet(statusFilter));
      }
      filteredBlogs := filtered;
    }

    /** `loadBlogs`, then the filter effect. */
    method LoadBlogs()
      modifies this
      ensures blogs == MockBlogs
      ensures searchTerm == old(searchTerm) && statusFilter == old(statusFilter)
      ensures Valid()
    {
      blogs := MockBlogs;
      ApplyFilter();
    }

    method SetSearchTerm(term: string)
      modifies this
      ensures searchTerm == term
      ensures blogs == old(blogs) && statusFilter == old(statusFilter)
      ensures Valid()
    {
      searchTerm := term;
      ApplyFilter();
    }

    method SetStatusFilter(facet: string)
      modifies this
      ensures statusFilter == facet
      ensures blogs == old(blogs) && searchTerm == old(searchTerm)
      ensures Valid()
    {
      statusFilter := facet;
      ApplyFilter();
    }

    /** `handleStatusUpdate`: only the two moderation outcomes are passed in. */
    method HandleStatusUpdate(id: int, s: BlogStatus)
      requires s == Published || s == Rejected
      modifies this
      ensures blogs == WithStatus(old(blogs), id, s)
      ensures searchTerm == old(searchTerm) && statusFilter == old(statusFilter)
      ensures Valid()
    {
      blogs := WithStatus(blogs, id, s);
      ApplyFilter();
    }

    /** `handleDelete`. */
    method HandleDelete(id: int)
      modifies this
      ensures blogs == WithoutBlog(old(blogs), id)
      ensures searchTerm == old(searchTerm) && statusFilter == old(statusFilter)
      ensures Valid()
    {
      blogs := WithoutBlog(blogs, id);
      ApplyFilter();
    }
  }
}
