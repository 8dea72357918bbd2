/**
 * template_redirect as a decision on the resolved request: whether to redirect a
 * request that still spells out the category hierarchy, where to, and with which
 * HTTP status.
 */
module Redirect {
  import opened Wrappers
  import opened PhpStrings

  /** What template_redirect reads from the main query once it has resolved. */
  datatype View = View(
    isCategory: bool,               // is_category()
    isSingle: bool,                 // is_single()
    requestedName: Option<string>,  // $wp_query->query['category_name'], when it is set
    resolvedName: string,           // $wp_query->query_vars['category_name']
    cat: nat)                       // $wp_query->query_vars['cat']

  /** Where a redirect goes: the category link of a category id, or the current post's permalink. */
  datatype Target = CategoryLinkFor(categoryId: nat) | PostPermalink

  datatype Redirect = Redirect(target: Target, status: int)

  /** The value of `$category_name`: the requested name, or "" when the request had none. */
  function RequestedName(v: View): string {
    if v.requestedName.Some? then v.requestedName.value else ""
  }

  const DefaultRedirectStatus: int := 301

  /**
   * get_http_redirect_status: 301 passed through the redirect-status filter;
   * `filter` is the hooked callback, if any.
   */
  function RedirectStatus(filter: Option<int -> int>): (status: int)
    ensures filter.None? ==> status == 301
    ensures filter.Some? ==> status == filter.value(DefaultRedirectStatus)
  {
    if filter.Some? then filter.value(DefaultRedirectStatus) else DefaultRedirectStatus
  }

  /**
   * The redirect decision: a category archive reached under a category name that
   * the query resolved to something else goes to that category's link; a single
   * post reached under a category name with a '/' in it goes to the post's
   * permalink; nothing else is redirected.
   */
  function RedirectTarget(v: View): (r: Option<Target>)
    ensures v.isCategory ==>
      (r.Some? <==> Truthy(RequestedName(v)) && RequestedName(v) != v.resolvedName)
    ensures v.isCategory && r.Some? ==> r.value == CategoryLinkFor(v.cat)
    ensures !v.isCategory && v.isSingle ==> (r.Some? <==> '/' in RequestedName(v))
    ensures !v.isCategory && v.isSingle && r.Some? ==> r.value == PostPermalink
    ensures !v.isCategory && !v.isSingle ==> r.None?
  {
    var name := RequestedName(v);
    SubstrCountSlash(name);
    if v.isCategory then
      if Truthy(name) && name != v.resolvedName then Some(CategoryLinkFor(v.cat)) else None
    else if v.isSingle then
      if Truthy(name) && SubstrCount(name, "/") >= 1 then Some(PostPermalink) else None
    else None
  }

  /** template_redirect with the category link requested for the 'category' taxonomy. */
  function TemplateRedirect(v: View, filter: Option<int -> int>): (r: Option<Redirect>)
    ensures r.Some? <==> RedirectTarget(v).Some?
    ensures r.Some? ==> r.value.target == RedirectTarget(v).value && r.value.status == RedirectStatus(filter)
  {
    match RedirectTarget(v)
    case None => None
    case Some(target) => Some(Redirect(target, RedirectStatus(filter)))
  }

  /** A request without a category name is never redirected. */
  lemma NoNameNoRedirect(v: View, filter: Option<int -> int>)
    requires v.requestedName.None?
    ensures TemplateRedirect(v, filter).None?
  {
  }

  /** With no callback on the filter, every redirect is permanent (301). */
  lemma RedirectsArePermanentByDefault(v: View)
    ensures var r := TemplateRedirect(v, None); r.Some? ==> r.value.status == 301
  {
  }

  /** What running template_redirect as written leads to. */
  datatype Outcome = NoRedirect | Redirected(redirect: Redirect) | Fatal(error: string)

  /**
   * template_redirect exactly as written: the category branch calls category_link
   * with two arguments, and category_link has three parameters without defaults,
   * which PHP 7.1 and later reject with an ArgumentCountError.
   */
  function TemplateRedirectAsWritten(v: View, filter: Option<int -> int>): (r: Outcome)
    ensures r.Fatal? <==> v.isCategory && RedirectTarget(v).Some?
    ensures r.Redirected? ==> r.redirect == Redirect(PostPermalink, RedirectStatus(filter))
  {
    var name := RequestedName(v);
    if v.isCategory then
      if Truthy(name) && name != v.resolvedName then Fatal("ArgumentCountError") else NoRedirect
    else if v.isSingle then
      if Truthy(name) && SubstrCount(name, "/") >= 1
      then Redirected(Redirect(PostPermalink, RedirectStatus(filter)))
      else NoRedirect
    else NoRedirect
  }

  /** As written, every category-archive redirect ends in a fatal error instead of a redirect. */
  lemma AsWrittenCategoryRedirectFails(v: View, filter: Option<int -> int>)
    requires v.isCategory && TemplateRedirect(v, filter).Some?
    ensures TemplateRedirectAsWritten(v, filter) == Fatal("ArgumentCountError")
  {
  }

  /**
   * The archive of "integratori" requested as "medicina-e-salute/integratori": meant
   * to be a 301 to that category's link, but as written it fails.
   */
  lemma AsWrittenCounterexample()
    ensures var v := View(true, false, Some("medicina-e-salute/integratori"), "integratori", 8);
      && TemplateRedirectAsWritten(v, None) == Fatal("ArgumentCountError")
      && TemplateRedirect(v, None) == Some(Redirect(CategoryLinkFor(8), 301))
  {
  }

  /** Away from that branch, the code as written and the corrected decision agree. */
  lemma AsWrittenAgreesElsewhere(v: View, filter: Option<int -> int>)
    requires !v.isCategory || TemplateRedirect(v, filter).None?
    ensures TemplateRedirectAsWritten(v, filter)
         == if TemplateRedirect(v, filter).Some? then Redirected(TemplateRedirect(v, filter).value) else NoRedirect
  {
  }
}
