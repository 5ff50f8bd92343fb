/**
 * The public authors page: featured authors apart, a search over the others,
 * and totals over every author.
 */
module AuthorsPage {
  import opened Seqs
  import opened Text

  datatype AuthorProfile = AuthorProfile(id: int, name: string, username: string, avatar: string,
                                         bio: string, followers: int, following: int, articles: int,
                                         totalLikes: int, categories: seq<string>, featured: bool,
                                         verified: bool)

  /** The six authors the page shows. */
  const PageAuthors: seq<AuthorProfile> := [
    AuthorProfile(1, "Sarah Chen", "sarah-chen",
      "https://images.unsplash.com/photo-1494790108755-2616b332-2616?w=80&h=80&fit=crop&crop=face",
      "Full-stack developer and tech writer passionate about emerging technologies and sustainable coding practices.",
      1240, 89, 23, 2456, ["Technology", "AI", "Web Development"], true, true),
    AuthorProfile(2, "Marcus Thompson", "marcus-thompson",
      "https://images.unsplash.com/photo-1507003211169-0a1dd7228f2d?w=80&h=80&fit=crop&crop=face",
      "Wellness coach and mindfulness advocate helping people find balance in the digital age.",
      890, 156, 18, 1876, ["Lifestyle", "Wellness", "Mindfulness"], true, false),
    AuthorProfile(3, "Elena Rodriguez", "elena-rodriguez",
      "https://images.unsplash.com/photo-1438761681033-6461ffad8d80?w=80&h=80&fit=crop&crop=face",
      "Sustainability consultant and entrepreneur focused on building a greener future through conscious business practices.",
      567, 234, 15, 1234, ["Business", "Sustainability", "Environment"], true, true),
    AuthorProfile(4, "David Kim", "david-kim",
      "https://images.unsplash.com/photo-1472099645785-5658abf4ff4e?w=80&h=80&fit=crop&crop=face",
      "UX designer and creative director with 10+ years of experience in digital product design.",
      1456, 78, 27, 3210, ["Design", "UX", "Creativity"], false, true),
    AuthorProfile(5, "Priya Patel", "priya-patel",
      "https://images.unsplash.com/photo-1489424731084-a5d8b219a5bb?w=80&h=80&fit=crop&crop=face",
      "Data scientist and AI educator making complex topics accessible to everyone.",
      978, 145, 21, 2187, ["AI", "Data Science", "Education"], false, false),
    AuthorProfile(6, "James Wilson", "james-wilson",
      "https://images.unsplash.com/photo-1500648767791-00dcc994a43e?w=80&h=80&fit=crop&crop=face",
      "Travel photographer and storyteller capturing the beauty of our world through words and images.",
      654, 298, 19, 1567, ["Travel", "Photography", "Culture"], false, false)
  ]

  function IsFeatured(a: AuthorProfile): bool { a.featured }

  function NotFeatured(a: AuthorProfile): bool { !a.featured }

  /** `authors.filter(author => author.featured)`. */
  function FeaturedAuthors(authors: seq<AuthorProfile>): seq<AuthorProfile> {
    Filter(authors, IsFeatured)
  }

  /** `authors.filter(author => !author.featured)`: the list the search runs over. */
  function AllAuthors(authors: seq<AuthorProfile>): seq<AuthorProfile> {
    Filter(authors, NotFeatured)
  }

  /** Featured and non-featured authors split the list: in order, disjoint, covering every entry. */
  lemma FeaturedPartition(authors: seq<AuthorProfile>)
    ensures IsSubseq(FeaturedAuthors(authors), authors) && IsSubseq(AllAuthors(authors), authors)
    ensures |FeaturedAuthors(authors)| + |AllAuthors(authors)| == |authors|
    ensures multiset(FeaturedAuthors(authors)) + multiset(AllAuthors(authors)) == multiset(authors)
    ensures forall a :: a in FeaturedAuthors(authors) ==> a !in AllAuthors(authors)
  {
    FilterIsSubseq(authors, IsFeatured);
    FilterIsSubseq(authors, NotFeatured);
    FilterPartition(authors, IsFeatured, NotFeatured);
  }

  /** `categories.some(...)`: some category contains the query, ignoring case. */
  predicate SomeCategoryMatches(categories: seq<string>, query: string) {
    exists c :: c in categories && IncludesIgnoringCase(c, query)
  }

  /** The search matches the name, the bio or any category, ignoring case. */
  predicate MatchesQuery(a: AuthorProfile, query: string) {
    IncludesIgnoringCase(a.name, query) || IncludesIgnoringCase(a.bio, query)
    || SomeCategoryMatches(a.categories, query)
  }

  function QueryFor(query: string): AuthorProfile -> bool {
    (a: AuthorProfile) => MatchesQuery(a, query)
  }

  /** `filteredAuthors`: the search over the non-featured authors, with no guard on an empty query. */
  function FilteredAuthors(authors: seq<AuthorProfile>, query: string): seq<AuthorProfile> {
    Filter(AllAuthors(authors), QueryFor(query))
  }

  /** The "All Authors (n)" heading counts the search result. */
  function ShownCount(authors: seq<AuthorProfile>, query: string): (n: nat)
    ensures n <= |AllAuthors(authors)| <= |authors|
  {
    |FilteredAuthors(authors, query)|
  }

  /**
   * The search result keeps the order of the page's list, never holds a
   * featured author, and holds exactly the non-featured authors that match.
   */
  lemma FilteredAuthorsSpec(authors: seq<AuthorProfile>, query: string)
    ensures IsSubseq(FilteredAuthors(authors, query), AllAuthors(authors))
    ensures IsSubseq(FilteredAuthors(authors, query), authors)
    ensures forall a :: a in FilteredAuthors(authors, query) <==>
              a in authors && !a.featured && MatchesQuery(a, query)
    ensures forall a :: multiset(FilteredAuthors(authors, query))[a] ==
              if !a.featured && MatchesQuery(a, query) then multiset(authors)[a] else 0
  {
    FilterMultiplicity(AllAuthors(authors), QueryFor(query));
    FilterMultiplicity(authors, NotFeatured);
    FilterIsSubseq(AllAuthors(authors), QueryFor(query));
    FilterIsSubseq(authors, NotFeatured);
    FilterMembers(AllAuthors(authors), QueryFor(query));
    FilterMembers(authors, NotFeatured);
    IsSubseqTransitive(FilteredAuthors(authors, query), AllAuthors(authors), authors);
  }

  /** Every string contains the empty query, so an empty search shows every non-featured author. */
  lemma EmptyQueryKeepsAll(authors: seq<AuthorProfile>)
    ensures FilteredAuthors(authors, "") == AllAuthors(authors)
  {
    forall a | a in AllAuthors(authors)
      ensures MatchesQuery(a, "")
    {
      IncludesEmpty(Lower(a.name));
    }
    FilterAll(AllAuthors(authors), QueryFor(""));
  }

  function ArticlesOf(a: AuthorProfile): int { a.articles }

  function FollowersOf(a: AuthorProfile): int { a.followers }

  function LikesOf(a: AuthorProfile): int { a.totalLikes }

  /** The stats section: every author counted, featured and not. */
  datatype Totals = Totals(authors: int, articles: int, followers: int, likes: int)

  function PageTotals(authors: seq<AuthorProfile>): Totals {
    Totals(|authors|, Sum(authors, ArticlesOf), Sum(authors, FollowersOf), Sum(authors, LikesOf))
  }

  /** Each total is the featured authors' part plus the other authors' part. */
  lemma TotalsSplit(authors: seq<AuthorProfile>)
    ensures var t, f, o := PageTotals(authors), PageTotals(FeaturedAuthors(authors)), PageTotals(AllAuthors(authors));
            t.authors == f.authors + o.authors && t.articles == f.articles + o.articles
            && t.followers == f.followers + o.followers && t.likes == f.likes + o.likes
  {
    FilterPartition(authors, IsFeatured, NotFeatured);
    SumPartition(authors, IsFeatured, NotFeatured, ArticlesOf);
    SumPartition(authors, IsFeatured, NotFeatured, FollowersOf);
    SumPartition(authors, IsFeatured, NotFeatured, LikesOf);
  }
}
