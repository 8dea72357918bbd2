/**
 * Choosing the one category that represents a post: the SEO plugin's primary term
 * when it has one (get_post_primary_category), and the older lowest-id rule
 * (GetLastCategory), which the plugin keeps but no longer calls.
 */
module PrimaryCategory {
  import opened Wrappers
  import opened Taxonomy

  /** What a WordPress term lookup (`get_term`, `get_category`) returns: a term, null, or a WP_Error. */
  datatype TermLookup = Found(term: Category) | Missing | LookupError(code: string)

  /** The array get_post_primary_category builds; `all` is present only when all ids were asked for. */
  datatype PrimaryCategories = PrimaryCategories(primary: Option<Category>, all: Option<seq<nat>>)

  /**
   * The primary category of a post. `seo` is None when the SEO plugin is not loaded,
   * otherwise the lookup of the primary term it declares; `categories` is the post's
   * category list in the order WordPress returns it.
   */
  function PrimaryCategoryOf(seo: Option<TermLookup>, categories: seq<Category>): Option<Category> {
    if seo.Some? && seo.value.Found? then Some(seo.value.term)
    else if |categories| > 0 then Some(categories[0])
    else None
  }

  /** A resolved SEO primary term is chosen whatever the post's category list holds. */
  lemma SeoPrimaryWins(c: Category, categories1: seq<Category>, categories2: seq<Category>)
    ensures PrimaryCategoryOf(Some(Found(c)), categories1) == PrimaryCategoryOf(Some(Found(c)), categories2) == Some(c)
  {
  }

  /**
   * Without a resolved SEO primary term, the choice is the first assigned category,
   * and there is none exactly when the post has no categories.
   */
  lemma FallbackIsFirstAssigned(seo: Option<TermLookup>, categories: seq<Category>)
    requires seo.None? || !seo.value.Found?
    ensures PrimaryCategoryOf(seo, categories).Some? <==> |categories| > 0
    ensures |categories| > 0 ==> PrimaryCategoryOf(seo, categories) == Some(categories[0])
  {
  }

  /** The chosen category is the SEO term or one of the post's own categories. */
  lemma PrimaryIsDeclaredOrAssigned(seo: Option<TermLookup>, categories: seq<Category>)
    ensures var p := PrimaryCategoryOf(seo, categories);
      p.Some? ==> seo == Some(Found(p.value)) || p.value in categories
  {
  }

  /**
   * get_post_primary_category($post_id, 'category', $returnAll): the primary category
   * and, when asked for, every assigned term id in list order.
   */
  method GetPostPrimaryCategory(seo: Option<TermLookup>, categories: seq<Category>, returnAll: bool)
    returns (r: PrimaryCategories)
    ensures r.primary == PrimaryCategoryOf(seo, categories)
    ensures r.all.Some? <==> returnAll
    ensures returnAll ==> |r.all.value| == |categories|
    ensures returnAll ==> forall i | 0 <= i < |categories| :: r.all.value[i] == categories[i].termId
  {
    var primary: Option<Category> := None;
    if seo.Some? {
      match seo.value
      case Found(term) => primary := Some(term);
      case Missing => primary := None;
      case LookupError(_) =>
    }
    var all: Option<seq<nat>> := None;
    if primary.None? || returnAll {
      var categoriesList := categories;
      if primary.None? && |categoriesList| > 0 {
        primary := Some(categoriesList[0]);
      }
      if returnAll {
        var ids: seq<nat> := [];
        var i := 0;
        while i < |categoriesList|
          invariant 0 <= i <= |categoriesList|
          invariant |ids| == i
          invariant forall j | 0 <= j < i :: ids[j] == categoriesList[j].termId
        {
          ids := ids + [categoriesList[i].termId];
          i := i + 1;
        }
        all := Some(ids);
      }
    }
    r := PrimaryCategories(primary, all);
  }

  predicate SortedByTermId(s: seq<Category>) {
    forall i, j | 0 <= i < j < |s| :: s[i].termId <= s[j].termId
  }

  /** A lower bound on the term ids of a list holds for every rearrangement of it. */
  lemma LowerBoundCarries(lo: nat, a: seq<Category>, b: seq<Category>)
    requires multiset(a) == multiset(b)
    requires forall k | 0 <= k < |b| :: lo <= b[k].termId
    ensures forall j | 0 <= j < |a| :: lo <= a[j].termId
  {
    forall j | 0 <= j < |a| ensures lo <= a[j].termId {
      assert a[j] in multiset(a);
      assert a[j] in b;
    }
  }

  /** Insert `c` into a list sorted by term id, before the first entry whose id is not smaller. */
  function InsertByTermId(c: Category, s: seq<Category>): (r: seq<Category>)
    requires SortedByTermId(s)
    ensures SortedByTermId(r)
    ensures multiset(r) == multiset(s) + multiset{c}
  {
    if s == [] || c.termId <= s[0].termId then [c] + s
    else
      var rest := InsertByTermId(c, s[1..]);
      assert s == [s[0]] + s[1..];
      LowerBoundCarries(s[0].termId, rest, s[1..] + [c]);
      [s[0]] + rest
  }

  /** wp_list_sort($cats, 'term_id', 'asc'): the same categories, ordered by ascending term id. */
  function SortByTermId(s: seq<Category>): (r: seq<Category>)
    ensures SortedByTermId(r)
    ensures multiset(r) == multiset(s)
  {
    if s == [] then []
    else
      assert s == [s[0]] + s[1..];
      InsertByTermId(s[0], SortByTermId(s[1..]))
  }

  /**
   * GetLastCategory: after sorting the assigned categories by id, the first one; the
   * lookup of the site's default category when the post has none.
   */
  function GetLastCategory(categories: seq<Category>, defaultCategory: TermLookup): (r: TermLookup)
    ensures |categories| > 0 ==> r.Found? && r.term in categories
    ensures |categories| > 0 ==> forall c | c in categories :: r.term.termId <= c.termId
    ensures categories == [] ==> r == defaultCategory
  {
    if |categories| > 0 then
      var sorted := SortByTermId(categories);
      assert sorted[0] in multiset(sorted);
      assert forall c | c in categories :: c in multiset(sorted);
      Found(sorted[0])
    else defaultCategory
  }

  /**
   * The two rules differ: with categories 5, 2 and 9 assigned in that order, the plugin
   * now picks 5 (the first), while GetLastCategory picks 2 (the lowest id).
   */
  lemma FirstAssignedIsNotLowestId(d: TermLookup)
    ensures var c5, c2, c9 := Category(5, "a", 0), Category(2, "b", 0), Category(9, "c", 0);
      && PrimaryCategoryOf(None, [c5, c2, c9]) == Some(c5)
      && GetLastCategory([c5, c2, c9], d) == Found(c2)
  {
    var c5, c2, c9 := Category(5, "a", 0), Category(2, "b", 0), Category(9, "c", 0);
    var r := GetLastCategory([c5, c2, c9], d);
    assert r.term in [c5, c2, c9];
  }
}
