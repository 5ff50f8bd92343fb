/** The categories page: featured categories apart from the others, and the stats row. */
module Categories {
  import opened Seqs

  /** A category card; `icon` is the name of the icon component it shows. */
  datatype Category = Category(name: string, slug: string, description: string, icon: string,
                               color: string, count: int, featured: bool)

  const PageCategories: seq<Category> := [
    Category("Technology", "technology", "Latest in tech, programming, and digital innovation",
             "Code", "bg-blue-500", 145, true),
    Category("Design", "design", "UI/UX, graphic design, and creative inspiration",
             "Palette", "bg-purple-500", 89, true),
    Category("Lifestyle", "lifestyle", "Wellness, productivity, and personal development",
             "Heart", "bg-pink-500", 124, true),
    Category("Business", "business", "Entrepreneurship, marketing, and industry insights",
             "Briefcase", "bg-green-500", 97, false),
    Category("Travel", "travel", "Adventures, destinations, and travel tips",
             "Plane", "bg-sky-500", 73, false),
    Category("Photography", "photography", "Visual storytelling and photography techniques",
             "Camera", "bg-orange-500", 56, false),
    Category("Education", "education", "Learning, teaching, and knowledge sharing",
             "BookOpen", "bg-indigo-500", 82, false),
    Category("Food", "food", "Recipes, culinary adventures, and food culture",
             "Utensils", "bg-red-500", 64, false)
  ]

  function IsFeatured(c: Category): bool { c.featured }

  function NotFeatured(c: Category): bool { !c.featured }

  /** `categories.filter(cat => cat.featured)`. */
  function FeaturedCategories(categories: seq<Category>): seq<Category> {
    Filter(categories, IsFeatured)
  }

  /** `categories.filter(cat => !cat.featured)`. */
  function OtherCategories(categories: seq<Category>): seq<Category> {
    Filter(categories, NotFeatured)
  }

  function CountOf(c: Category): int { c.count }

  /** The "Total Articles" figure. */
  function TotalArticles(categories: seq<Category>): int {
    Sum(categories, CountOf)
  }

  /**
   * Both sections keep the page's order, no category is in both, together they
   * hold every category, and the "Categories" figure is featured plus other.
   */
  lemma SectionsPartition(categories: seq<Category>)
    ensures IsSubseq(FeaturedCategories(categories), categories)
    ensures IsSubseq(OtherCategories(categories), categories)
    ensures forall c :: c in FeaturedCategories(categories) ==> c !in OtherCategories(categories)
    ensures multiset(FeaturedCategories(categories)) + multiset(OtherCategories(categories)) == multiset(categories)
    ensures |categories| == |FeaturedCategories(categories)| + |OtherCategories(categories)|
  {
    FilterIsSubseq(categories, IsFeatured);
    FilterIsSubseq(categories, NotFeatured);
    FilterPartition(categories, IsFeatured, NotFeatured);
  }

  /** The total is the featured sections' counts plus the others'. */
  lemma TotalSplits(categories: seq<Category>)
    ensures TotalArticles(categories)
            == TotalArticles(FeaturedCategories(categories)) + TotalArticles(OtherCategories(categories))
  {
    SumPartition(categories, IsFeatured, NotFeatured, CountOf);
  }

  /** The stats row of the page: 730 articles over 8 categories. */
  lemma PageTotal()
    ensures TotalArticles(PageCategories) == 730
    ensures |PageCategories| == 8
  {
    var c := PageCategories;
    assert c[7..][1..] == [];
    assert Sum(c[7..], CountOf) == 64;
    assert c[6..][1..] == c[7..];
    assert Sum(c[6..], CountOf) == 146;
    assert c[5..][1..] == c[6..];
    assert Sum(c[5..], CountOf) == 202;
    assert c[4..][1..] == c[5..];
    assert Sum(c[4..], CountOf) == 275;
    assert c[3..][1..] == c[4..];
    assert Sum(c[3..], CountOf) == 372;
    assert c[2..][1..] == c[3..];
    assert Sum(c[2..], CountOf) == 496;
    assert c[1..][1..] == c[2..];
    assert Sum(c[1..], CountOf) == 585;
  }

  /** Three of the page's categories are featured: Technology, Design and Lifestyle. */
  lemma PageFeatured()
    ensures FeaturedCategories(PageCategories) == PageCategories[..3]
  {
    FilterPrefix(PageCategories, 3, IsFeatured);
  }
}
