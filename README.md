# Single Category Permalink, modelled in Dafny

A model of the WordPress plugin *Single Category Permalink* (file
`single-category-permalink.php`). The plugin shortens permalinks that spell out a
whole category hierarchy (`/medicina-e-salute/integratori/my-post/`) to ones that
carry only the lowest category (`/integratori/my-post/`). It also redirects requests
that still use the long form.

The model covers the four pieces of logic under the hook plumbing:

- **post_link**: choose the post's primary category, compute its hierarchy string
  (ancestor slugs, root first, each followed by `/`, then the leaf slug) and replace
  every occurrence of that string in the permalink by the leaf slug (`Permalinks.PostLink`).
- **primary category**: `get_post_primary_category` prefers the SEO plugin's primary
  term, else takes the first category in the order WordPress returns them. It is an
  imperative method with a loop (`PrimaryCategory.GetPostPrimaryCategory`), specified by
  `PrimaryCategory.PrimaryCategoryOf`. The unused `GetLastCategory` (lowest term id, else
  the default category) is modelled separately, with `wp_list_sort` as a proved sort.
- **category_link**: a four-way branch on the taxonomy, on whether a category
  permastruct exists, and on the category lookup (`Permalinks.CategoryLink`).
- **template_redirect**: a pure decision on the resolved view, returning the redirect
  target and status (`Redirect.TemplateRedirect`).

The PHP primitives the code depends on are modelled in `PhpStrings`. `str_replace`
replaces every non-overlapping occurrence, scanning left to right. The others are
`strpos(...) !== false`, `substr_count`, string truthiness (`""` and `"0"` are falsy),
`trailingslashit` and integer-to-decimal conversion.

The category table is a map from term id to `Category(termId, slug, parent)`, where
parent 0 means top level. `Taxonomy.WellFormed` asks that each entry is keyed by its
own id and that every parent chain reaches the root within as many steps as there are
categories, so the chain is acyclic and closed.

Inputs instead of ambient state:
- Configuration is passed as parameters: the permalink structure, `siteurl` and the
  category permastruct.
- Results of WordPress and Yoast calls are passed as values: the primary-term lookup,
  `get_the_terms`, `get_category`, and the default-category lookup.
- `home_url` and `user_trailingslashit` are function-valued fields of `Permalinks.Site`.
- For template_redirect, `is_category()`, `is_single()` and the `$wp_query` fields are
  the fields of `Redirect.View`. The redirect-status filter callback is an optional
  function.

The live path differs from the unused `GetLastCategory` and from its comment at
lines 124-125 (lowest id); the model follows the live path:
- The live path picks the first assigned category, not the lowest id. Line 91 comments
  out the call to `GetLastCategory`. `PrimaryCategory.FirstAssignedIsNotLowestId` shows
  the two rules give different answers.
- The live path has no fallback to the default category. A post with no primary term
  and no categories has no category at line 93.
- `str_replace` at line 108 replaces every occurrence of the hierarchy string.
- The primary term is skipped when its lookup is null as well as when it is an error
  (lines 149 and 155).

The behaviour for a post with no category at all comes from PHP null coercion, not
from a documented promise. `$category->slug` reads as null, and
`str_replace(null, null, $permalink)` returns the permalink unchanged. The model
states this as an explicit `None` branch of `PostLink`. Likewise, `category_link` for
a category that `get_category` returns as null substitutes an empty slug (the `Missing`
case).

## Model

| member | source | states |
|---|---|---|
| `PhpStrings.ReplaceAll` | single-category-permalink.php:108 | str_replace: the subject scanned left to right with every non-overlapping occurrence of the search string replaced; an empty search string leaves the subject alone |
| `PhpStrings.Contains` | single-category-permalink.php:89 | `strpos(...) !== false`: the needle occurs at some position of the string |
| `PhpStrings.SubstrCount` | single-category-permalink.php:203 | substr_count: the number of non-overlapping occurrences of a non-empty needle, counted left to right |
| `PhpStrings.Truthy` | single-category-permalink.php:194 | PHP truthiness of a string: every string except "" and "0" |
| `PhpStrings.ReplaceAllAbsent` | single-category-permalink.php:108 | str_replace leaves a subject with no occurrence of the search string unchanged |
| `PhpStrings.ReplaceAllSame` | single-category-permalink.php:108 | replacing a string by itself changes nothing, whatever the subject |
| `PhpStrings.ReplaceAllShrinks` | single-category-permalink.php:108 | a replacement no longer than the search string never lengthens the subject |
| `PhpStrings.ReplaceAllStrictlyShrinks` | single-category-permalink.php:108 | a strictly shorter replacement of a string that occurs strictly shortens the subject |
| `PhpStrings.ReplaceAllLength` | single-category-permalink.php:108 | the result's length is the subject's length with each of the substr_count occurrences trading the search length for the replacement length |
| `PhpStrings.ReplaceAllShortening` | single-category-permalink.php:108 | with a replacement no longer than the search, the subject shrinks by the length difference once per occurrence |
| `PhpStrings.ReplaceAllSkip` | single-category-permalink.php:108 | a prefix without the search string's first character passes through str_replace unchanged |
| `PhpStrings.SubstrCountZeroIff` | single-category-permalink.php:203 | substr_count is zero exactly when strpos finds no occurrence |
| `PhpStrings.SubstrCountSlash` | single-category-permalink.php:203 | `substr_count($s, '/') >= 1` holds exactly when the string contains a '/' |
| `PhpStrings.UntrailingSlashIt` | single-category-permalink.php:240 | untrailingslashit yields the longest prefix not ending in '/' or '\\', and only slashes are removed |
| `PhpStrings.TrailingSlashIt` | single-category-permalink.php:240 | trailingslashit: the string with its trailing '/' and '\\' characters removed, then one '/' appended |
| `PhpStrings.TrailingSlashItShape` | single-category-permalink.php:240 | trailingslashit ends in exactly one '/' |
| `PhpStrings.TrailingSlashItIdempotent` | single-category-permalink.php:240 | applying trailingslashit twice is the same as once |
| `PhpStrings.NatToString` | single-category-permalink.php:241 | the decimal form of the category id is non-empty, all digits, and has no leading zero |
| `PhpStrings.ParseNatToString` | single-category-permalink.php:241 | the decimal form of an id reads back as the same id |
| `Taxonomy.AncestorPath` | single-category-permalink.php:102 | get_category_parents($id, false, '/', true): the slug of the category followed by '/', preceded by the same for its parent chain up to the root |
| `Taxonomy.Ancestry` | single-category-permalink.php:100-102 | following parent links from a category yields its ancestry chain up to a top-level category |
| `Taxonomy.AncestorPathRootFirst` | single-category-permalink.php:102 | get_category_parents is the chain's slugs, root first, each followed by '/' |
| `Taxonomy.AncestorPathFuel` | single-category-permalink.php:102 | the ancestor path does not depend on the step bound used to compute it |
| `Taxonomy.CategoryHierarchy` | single-category-permalink.php:98-104 | the hierarchy string ends with the category's own slug, and equals the slug exactly when the category is top level |
| `Taxonomy.HierarchyRootFirst` | single-category-permalink.php:98-104 | the hierarchy string is the parent's ancestors' slugs root first, each followed by '/', then the leaf slug |
| `PrimaryCategory.PrimaryCategoryOf` | single-category-permalink.php:143-162 | the primary category: the SEO plugin's term when its lookup found one, otherwise element 0 of the category list, otherwise none |
| `PrimaryCategory.SeoPrimaryWins` | single-category-permalink.php:143-162 | a resolved SEO primary term is chosen whatever the post's category list holds |
| `PrimaryCategory.FallbackIsFirstAssigned` | single-category-permalink.php:155-162 | without a resolved primary term, the choice is element 0 of the list, and there is none exactly when the list is empty |
| `PrimaryCategory.PrimaryIsDeclaredOrAssigned` | single-category-permalink.php:143-162 | the chosen category is the SEO term or one of the post's categories |
| `PrimaryCategory.GetPostPrimaryCategory` | single-category-permalink.php:139-178 | the primary category is the SEO term or the first assigned one; all_categories is present exactly when asked for and is the assigned term ids in list order |
| `PrimaryCategory.InsertByTermId` | single-category-permalink.php:129 | inserting into a list sorted by term id keeps it sorted and adds exactly one element |
| `PrimaryCategory.SortByTermId` | single-category-permalink.php:129 | wp_list_sort by term_id ascending returns a sorted permutation of the list |
| `PrimaryCategory.GetLastCategory` | single-category-permalink.php:119-137 | returns an assigned category whose id is at most every assigned id, or the default-category lookup when none is assigned |
| `PrimaryCategory.FirstAssignedIsNotLowestId` | single-category-permalink.php:91-93 | for categories 5, 2, 9 the live rule picks 5 while GetLastCategory picks 2 |
| `Permalinks.PostLink` | single-category-permalink.php:84-113 | without `%category%` in the structure, or without any category, the permalink is returned unchanged; the result is never longer than the input |
| `Permalinks.PostLinkTopLevel` | single-category-permalink.php:98-108 | a top-level primary category leaves the permalink unchanged |
| `Permalinks.PostLinkAlreadyShort` | single-category-permalink.php:106-108 | a permalink not containing the hierarchy string is left unchanged |
| `Permalinks.PostLinkShortensChild` | single-category-permalink.php:100-108 | for a child category whose hierarchy occurs, the permalink strictly shrinks, by the ancestor prefix's length once per occurrence |
| `Permalinks.PostLinkTwoLevel` | single-category-permalink.php:100-108 | for a child of a top-level category whose parent slug is non-empty and does not start with '/', "/parent/child" followed by a rest that does not contain "parent/child" becomes "/child" followed by the same rest |
| `Permalinks.CategoryLink` | single-category-permalink.php:226-258 | other taxonomies get the input back; no permastruct gives the site URL with a trailing slash, ?cat= and the id; a lookup error is propagated; otherwise every `%category%` in the permastruct is replaced by the slug and passed through user_trailingslashit and home_url |
| `Permalinks.CategoryLinkIgnoresDefault` | single-category-permalink.php:236 | for the category taxonomy the incoming default link never affects the result |
| `Permalinks.CategoryLinkQueryForm` | single-category-permalink.php:238-242 | without a permastruct the link is a slash-terminated site URL, then "?cat=", then digits that parse back to the id |
| `Permalinks.CategoryLinkSingleTag` | single-category-permalink.php:250-254 | a permastruct with one `%category%` tag, no '%' before it and no further tag after it, such as "/category/%category%/", gets the slug in its place and is otherwise unchanged before user_trailingslashit and home_url |
| `Redirect.RedirectStatus` | single-category-permalink.php:268-278 | the status is 301 unless a filter callback is hooked, in which case it is that callback applied to 301 |
| `Redirect.RedirectTarget` | single-category-permalink.php:189-207 | category view: redirect to the category link of `cat` iff the requested name is truthy and differs from the resolved one; single view: redirect to the permalink iff the requested name contains '/'; any other view: none |
| `Redirect.TemplateRedirect` | single-category-permalink.php:185-213 | a redirect happens exactly when the decision gives a target, with that target and the filtered status |
| `Redirect.NoNameNoRedirect` | single-category-permalink.php:190 | a request without a category name is never redirected |
| `Redirect.RedirectsArePermanentByDefault` | single-category-permalink.php:277 | with no filter callback every redirect uses status 301 |
| `Redirect.TemplateRedirectAsWritten` | single-category-permalink.php:185-213 | template_redirect as written: an ArgumentCountError where the category branch would redirect, a redirect to the post's permalink in the single-post branch, and nothing otherwise |
| `Redirect.AsWrittenCategoryRedirectFails` | single-category-permalink.php:196 | as written, every category-archive redirect ends in an ArgumentCountError |
| `Redirect.AsWrittenCounterexample` | single-category-permalink.php:192-197 | "medicina-e-salute/integratori" resolved as "integratori" fails as written but is meant to be a 301 to the category link |
| `Redirect.AsWrittenAgreesElsewhere` | single-category-permalink.php:185-213 | outside the category-redirect branch, the code as written and the corrected decision agree |

## Findings

| source | as written | input that shows it | evidently intended | confidence | as-written member | corrected member |
|---|---|---|---|---|---|---|
| single-category-permalink.php:196 | `self::category_link('', $wp_query->query_vars['cat'])` passes two arguments to a method with three parameters and no defaults; PHP 7.1 and later throw ArgumentCountError | a category archive requested as `medicina-e-salute/integratori` that resolves to `integratori` | redirect to the category link of `cat` for taxonomy `category` with the filtered status (301 by default) | not executed | `Redirect.AsWrittenCounterexample` | `Redirect.RedirectTarget` |

Under PHP before 7.1 the same call only warns: `$taxonomy` is null, so category_link
returns the empty `$catlink`, and the redirect is silently skipped. The code as
written is `Redirect.TemplateRedirectAsWritten`. The rest of the model uses the
corrected `Redirect.TemplateRedirect`.

## Left out

- Hook registration, textdomain loading, `init` and `version()` (lines 53-71, 282): framework wiring.
- The WordPress and Yoast calls are inputs, since their implementations are outside the plugin. These are `get_option`, `WPSEO_Primary_Term`, `get_term`, `get_the_terms`, `get_category`, `absint`, `home_url`, `user_trailingslashit`, `get_permalink` and `apply_filters`. Which ids make `get_category` return null rather than a WP_Error is therefore not modelled.
- `trailingslashit` is not part of this file. It is modelled by WordPress's definition: strip trailing '/' and '\\', then append '/'.
- `get_the_terms` returning a WP_Error is left out; the model takes its result as a list, with false read as the empty list. On a WP_Error the PHP would index an object.
- The `$term` parameter of get_post_primary_category is left out. Its only caller uses the default 'category', and the lookups passed in are the ones made for that taxonomy.
- The redirect side effect `wp_redirect` (line 211) and the truthiness of the resolved target URL at line 209 are left out. Targets are abstract: the category link of `cat`, or the post's permalink.
- Redirect.RedirectTarget: compares the requested and resolved category names with strict string inequality. PHP's loose `!=` at line 194 also treats two numeric strings with the same value (such as "1" and "01") as equal, and that case is not modelled.
- Redirect.RedirectStatus: the `(int)` cast of the filter's result is not modelled; the callback is taken to return an int.
- Permalinks.PostLink: requires an acyclic category table where every parent id is stored (`Taxonomy.WellFormed`). A category table with a dangling parent id is not modelled; what `get_category_parents` returns for such an id is decided by WordPress, outside this file.
- PhpStrings.SubstrCount: requires a non-empty needle, as PHP does; the plugin only counts "/".
- `Taxonomy.AncestorPath` carries a step bound (fuel) for termination. `Taxonomy.AncestorPathFuel` shows the path does not depend on it once the chain reaches the root.
- There is no permalink cache and no SEO canonical or Open Graph shims in this file, so none are modelled.
