/**
 * The two link filters: post_link shortens a post permalink that embeds the full
 * category hierarchy to one that embeds only the primary category's slug, and
 * category_link builds a category archive link from the category permastruct.
 */
module Permalinks {
  import opened Wrappers
  import opened PhpStrings
  import opened Taxonomy
  import opened PrimaryCategory

  /** The rewrite tag a permalink structure uses for the category path. */
  const CategoryTag := "%category%"

  /** The primary category, if any, has a parent the table can follow. */
  predicate PrimaryResolvable(t: Table, seo: Option<TermLookup>, categories: seq<Category>) {
    var p := PrimaryCategoryOf(seo, categories);
    p.None? || Resolvable(t, p.value.parent)
  }

  /**
   * post_link($permalink, $post), with the site's permalink structure, the category table
   * and the post's primary-term lookup and category list as explicit inputs.
   */
  function PostLink(structure: string, permalink: string, t: Table, seo: Option<TermLookup>, categories: seq<Category>): (r: string)
    requires WellFormed(t) && PrimaryResolvable(t, seo, categories)
    ensures !Contains(structure, CategoryTag) ==> r == permalink
    ensures PrimaryCategoryOf(seo, categories).None? ==> r == permalink
    ensures |r| <= |permalink|
  {
    if !Contains(structure, CategoryTag) then permalink
    else
      match PrimaryCategoryOf(seo, categories)
      // With no category, PHP coerces the null slug and hierarchy to "", and an empty
      // search string leaves the permalink alone.
      case None => permalink
      case Some(category) =>
        var hierarchy := CategoryHierarchy(t, category);
        ReplaceAllShrinks(permalink, hierarchy, category.slug);
        ReplaceAll(permalink, hierarchy, category.slug)
  }

  /** For a top-level primary category the hierarchy is the slug itself, so nothing changes. */
  lemma PostLinkTopLevel(structure: string, permalink: string, t: Table, seo: Option<TermLookup>, categories: seq<Category>, c: Category)
    requires WellFormed(t) && PrimaryResolvable(t, seo, categories)
    requires PrimaryCategoryOf(seo, categories) == Some(c) && c.parent == 0
    ensures PostLink(structure, permalink, t, seo, categories) == permalink
  {
    ReplaceAllSame(permalink, c.slug);
  }

  /** A permalink that is already short (the hierarchy string does not occur) is left alone. */
  lemma PostLinkAlreadyShort(structure: string, permalink: string, t: Table, seo: Option<TermLookup>, categories: seq<Category>, c: Category)
    requires WellFormed(t) && PrimaryResolvable(t, seo, categories)
    requires PrimaryCategoryOf(seo, categories) == Some(c)
    requires !Contains(permalink, CategoryHierarchy(t, c))
    ensures PostLink(structure, permalink, t, seo, categories) == permalink
  {
    ReplaceAllAbsent(permalink, CategoryHierarchy(t, c), c.slug);
  }

  /**
   * For a child category whose hierarchy string occurs, every occurrence gives up
   * the ancestor prefix, so the permalink gets strictly shorter, by exactly that
   * prefix's length per occurrence.
   */
  lemma PostLinkShortensChild(structure: string, permalink: string, t: Table, seo: Option<TermLookup>, categories: seq<Category>, c: Category, h: string)
    requires WellFormed(t) && PrimaryResolvable(t, seo, categories)
    requires Contains(structure, CategoryTag)
    requires PrimaryCategoryOf(seo, categories) == Some(c) && c.parent != 0
    requires h == CategoryHierarchy(t, c) && Contains(permalink, h)
    ensures |PostLink(structure, permalink, t, seo, categories)| < |permalink|
    ensures |PostLink(structure, permalink, t, seo, categories)| == |permalink| - SubstrCount(permalink, h) * (|h| - |c.slug|)
  {
    assert PostLink(structure, permalink, t, seo, categories) == ReplaceAll(permalink, h, c.slug);
    ReplaceAllStrictlyShrinks(permalink, h, c.slug);
    ReplaceAllShortening(permalink, h, c.slug);
  }

  /**
   * A post in a child of a top-level category: "/parent/child" followed by the rest
   * of the permalink becomes "/child" followed by the same rest, as in
   * "/medicina-e-salute/integratori/my-post/" becoming "/integratori/my-post/".
   */
  lemma PostLinkTwoLevel(structure: string, t: Table, parent: Category, child: Category, rest: string)
    requires WellFormed(t) && Contains(structure, CategoryTag)
    requires parent.termId in t && t[parent.termId] == parent && parent.parent == 0
    requires child.parent == parent.termId
    requires parent.slug != [] && parent.slug[0] != '/'
    requires !Contains(rest, parent.slug + "/" + child.slug)
    ensures PostLink(structure, "/" + parent.slug + "/" + child.slug + rest, t, None, [child])
         == "/" + child.slug + rest
  {
    var h := parent.slug + "/" + child.slug;
    RootedInTable(t, parent.termId);
    assert AncestorPath(t, parent.termId, |t|) == parent.slug + "/";
    assert CategoryHierarchy(t, child) == h;
    var permalink := "/" + parent.slug + "/" + child.slug + rest;
    assert PostLink(structure, permalink, t, None, [child]) == ReplaceAll(permalink, h, child.slug);
    assert permalink == "/" + (h + rest);
    ReplaceAllAbsent(rest, h, child.slug);
    assert (h + rest)[..|h|] == h;
    assert (h + rest)[|h|..] == rest;
    assert ReplaceAll(h + rest, h, child.slug) == child.slug + rest;
    ReplaceAllSkip("/", h + rest, h, child.slug);
  }

  /**
   * The site configuration category_link reads: `siteurl`, the category permastruct
   * ("" for none), and WordPress's home_url and user_trailingslashit, whose
   * definitions are outside the plugin.
   */
  datatype Site = Site(siteUrl: string, categoryPermastruct: string,
                       homeUrl: string -> string, userTrailingSlashIt: string -> string)

  /**
   * category_link($catlink, $category_id, $taxonomy); `lookup` is what
   * get_category($category_id) returns.
   */
  function CategoryLink(catlink: string, categoryId: nat, taxonomy: string, site: Site, lookup: TermLookup): (r: Result<string, string>)
    ensures taxonomy != "category" ==> r == Success(catlink)
    ensures taxonomy == "category" && !Truthy(site.categoryPermastruct) ==>
      r == Success(TrailingSlashIt(site.siteUrl) + "?cat=" + NatToString(categoryId))
    ensures taxonomy == "category" && Truthy(site.categoryPermastruct) && lookup.LookupError? ==>
      r == Failure(lookup.code)
    ensures taxonomy == "category" && Truthy(site.categoryPermastruct) && lookup.Found? ==>
      r == Success(site.homeUrl(site.userTrailingSlashIt(ReplaceAll(site.categoryPermastruct, CategoryTag, lookup.term.slug))))
    ensures taxonomy == "category" && Truthy(site.categoryPermastruct) && lookup.Missing? ==>
      r == Success(site.homeUrl(site.userTrailingSlashIt(ReplaceAll(site.categoryPermastruct, CategoryTag, ""))))
  {
    if taxonomy != "category" then Success(catlink)
    else if !Truthy(site.categoryPermastruct) then
      Success(TrailingSlashIt(site.siteUrl) + "?cat=" + NatToString(categoryId))
    else
      match lookup
      case LookupError(code) => Failure(code)
      case Found(category) =>
        Success(site.homeUrl(site.userTrailingSlashIt(ReplaceAll(site.categoryPermastruct, CategoryTag, category.slug))))
      // A null category reads its slug as "".
      case Missing =>
        Success(site.homeUrl(site.userTrailingSlashIt(ReplaceAll(site.categoryPermastruct, CategoryTag, ""))))
  }

  /** For the category taxonomy the incoming default link is overwritten, so it never matters. */
  lemma CategoryLinkIgnoresDefault(link1: string, link2: string, categoryId: nat, site: Site, lookup: TermLookup)
    ensures CategoryLink(link1, categoryId, "category", site, lookup) == CategoryLink(link2, categoryId, "category", site, lookup)
  {
  }

  /**
   * Without a permastruct the link is the site URL ending in exactly one '/', then
   * "?cat=", then the id in decimal, which reads back as the same id.
   */
  lemma CategoryLinkQueryForm(catlink: string, categoryId: nat, site: Site, lookup: TermLookup)
    requires !Truthy(site.categoryPermastruct)
    ensures var r := CategoryLink(catlink, categoryId, "category", site, lookup);
      var base := TrailingSlashIt(site.siteUrl);
      && r.Success?
      && r.value[..|base|] == base && base[|base| - 1] == '/'
      && r.value[|base|..|base| + 5] == "?cat="
      && var digits := r.value[|base| + 5..];
        (forall i | 0 <= i < |digits| :: IsDigit(digits[i])) && ParseDecimal(digits) == categoryId
  {
    var base := TrailingSlashIt(site.siteUrl);
    var r := CategoryLink(catlink, categoryId, "category", site, lookup).value;
    assert r == base + "?cat=" + NatToString(categoryId);
    assert r[|base| + 5..] == NatToString(categoryId);
    TrailingSlashItShape(site.siteUrl);
    ParseNatToString(categoryId);
  }

  /**
   * A permastruct with one `%category%` tag, such as "/category/%category%/", gets
   * the slug in place of the tag and nothing else changes ("/category/news/").
   */
  lemma CategoryLinkSingleTag(catlink: string, categoryId: nat, site: Site, c: Category, head: string, tail: string)
    requires site.categoryPermastruct == head + CategoryTag + tail
    requires '%' !in head && !Contains(tail, CategoryTag)
    ensures CategoryLink(catlink, categoryId, "category", site, Found(c))
         == Success(site.homeUrl(site.userTrailingSlashIt(head + c.slug + tail)))
  {
    var p := site.categoryPermastruct;
    assert p == head + (CategoryTag + tail);
    assert Truthy(p) by {
      assert |p| >= |CategoryTag|;
    }
    ReplaceAllAbsent(tail, CategoryTag, c.slug);
    assert (CategoryTag + tail)[..|CategoryTag|] == CategoryTag;
    assert (CategoryTag + tail)[|CategoryTag|..] == tail;
    assert ReplaceAll(CategoryTag + tail, CategoryTag, c.slug) == c.slug + tail;
    ReplaceAllSkip(head, CategoryTag + tail, CategoryTag, c.slug);
    assert ReplaceAll(p, CategoryTag, c.slug) == head + c.slug + tail;
  }
}
