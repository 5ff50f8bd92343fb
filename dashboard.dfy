/**
 * The writer's dashboard: the stat tiles and the published and drafts tabs
 * over the writer's articles.
 */
module Dashboard {
  import opened Wrappers
  import opened Seqs

  datatype Article = Article(id: int, title: string, status: string, publishedAt: Option<string>,
                             views: int, likes: int, comments: int, category: string)

  /** The three articles the dashboard lists. */
  const UserArticles: seq<Article> := [
    Article(1, "Getting Started with React Hooks", "published", Some("2024-01-15"), 1248, 89, 23, "Technology"),
    Article(2, "The Art of Minimalist Design", "draft", None, 0, 0, 0, "Design"),
    Article(3, "Building Sustainable Habits", "published", Some("2024-01-10"), 867, 56, 12, "Lifestyle")
  ]

  function IsPublished(a: Article): bool { a.status == "published" }

  function IsDraft(a: Article): bool { a.status == "draft" }

  /** The articles of the published tab. */
  function PublishedTab(articles: seq<Article>): seq<Article> {
    Filter(articles, IsPublished)
  }

  /** The articles of the drafts tab. */
  function DraftsTab(articles: seq<Article>): seq<Article> {
    Filter(articles, IsDraft)
  }

  function ViewsOf(a: Article): int { a.views }

  function LikesOf(a: Article): int { a.likes }

  datatype Stats = Stats(totalArticles: int, publishedArticles: int, totalViews: int, totalLikes: int)

  /** The `stats` object. */
  function ComputeStats(articles: seq<Article>): Stats {
    Stats(|articles|, |Filter(articles, IsPublished)|, Sum(articles, ViewsOf), Sum(articles, LikesOf))
  }

  /**
   * Each tab lists exactly the articles with its status, in list order, and no
   * article is in both.
   */
  lemma TabsSpec(articles: seq<Article>)
    ensures IsSubseq(PublishedTab(articles), articles) && IsSubseq(DraftsTab(articles), articles)
    ensures forall a :: a in PublishedTab(articles) <==> a in articles && a.status == "published"
    ensures forall a :: a in DraftsTab(articles) <==> a in articles && a.status == "draft"
    ensures forall a :: a in PublishedTab(articles) ==> a !in DraftsTab(articles)
    ensures forall a :: multiset(PublishedTab(articles))[a] == if a.status == "published" then multiset(articles)[a] else 0
    ensures forall a :: multiset(DraftsTab(articles))[a] == if a.status == "draft" then multiset(articles)[a] else 0
  {
    FilterMultiplicity(articles, IsPublished);
    FilterMultiplicity(articles, IsDraft);
    FilterIsSubseq(articles, IsPublished);
    FilterIsSubseq(articles, IsDraft);
    FilterMembers(articles, IsPublished);
    FilterMembers(articles, IsDraft);
  }

  /**
   * The published tile counts the published tab, which never exceeds the
   * total; the two tabs together hold at most every article.
   */
  lemma StatsSpec(articles: seq<Article>)
    ensures ComputeStats(articles).totalArticles == |articles|
    ensures ComputeStats(articles).publishedArticles == |PublishedTab(articles)|
    ensures ComputeStats(articles).publishedArticles + |DraftsTab(articles)| <= ComputeStats(articles).totalArticles
  {
    DisjointTabsFit(articles);
  }

  lemma {:induction false} DisjointTabsFit(articles: seq<Article>)
    ensures |PublishedTab(articles)| + |DraftsTab(articles)| <= |articles|
    decreases |articles|
  {
    if articles != [] {
      DisjointTabsFit(articles[1..]);
    }
  }

  /** The tiles the dashboard shows for its own articles. */
  lemma UserArticleStats()
    ensures ComputeStats(UserArticles) == Stats(3, 2, 2115, 145)
  {
    var a := UserArticles;
    assert a[1..][1..][1..] == [];
    assert Filter(a, IsPublished) == [a[0], a[2]];
  }
}
