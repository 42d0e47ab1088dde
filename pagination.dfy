/**
 * The pager's arithmetic: which page each button targets, when each button is
 * disabled, and the URL a click produces. Rendering and navigation are
 * outside the model.
 */
module Pagination {
  import opened Common
  import opened Text
  import opened UrlQuery

  datatype Button = Previous | Next

  /** `Number(page) + 1` for Next, `Number(page) - 1` for Previous. */
  function TargetPage(page: int, b: Button): (r: int)
    ensures b == Next ==> r == page + 1
    ensures b == Previous ==> r == page - 1
  {
    match b
    case Next => page + 1
    case Previous => page - 1
  }

  /** A button is disabled exactly when the page it targets lies outside 1..totalPages on its side. */
  predicate Disabled(page: int, totalPages: int, b: Button): (r: bool)
    ensures r <==> (b == Previous && TargetPage(page, b) < 1) || (b == Next && TargetPage(page, b) > totalPages)
  {
    match b
    case Previous => page <= 1
    case Next => page >= totalPages
  }

  /** `urlParamName || "page"`: an absent or empty name means "page". */
  function ParamName(urlParamName: Option<string>): (r: string)
    ensures r != ""
    ensures urlParamName.Some? && urlParamName.value != "" ==> r == urlParamName.value
    ensures !(urlParamName.Some? && urlParamName.value != "") ==> r == "page"
  {
    if urlParamName.Some? && urlParamName.value != "" then urlParamName.value else "page"
  }

  /** The URL a click on `b` navigates to. */
  function ClickUrl(params: Query, path: string, urlParamName: Option<string>, page: int, b: Button): Url
  {
    StringifyUrl(path, WithParam(params, ParamName(urlParamName), IntToString(TargetPage(page, b))))
  }

  /**
   * The clicked URL carries the target page under the parameter name, reads
   * back as that page, and keeps every other parameter of the current URL.
   */
  lemma ClickUrlSpec(params: Query, path: string, urlParamName: Option<string>, page: int, b: Button)
    ensures var u := ClickUrl(params, path, urlParamName, page, b);
      var name := ParamName(urlParamName);
      && u.path == path
      && name in u.query
      && ParseInt(u.query[name]) == Some(TargetPage(page, b))
      && (forall k :: k != name ==> (k in u.query <==> k in StringifyUrl(path, params).query))
      && (forall k :: k != name && k in u.query ==> u.query[k] == StringifyUrl(path, params).query[k])
  {
    ParseIntToString(TargetPage(page, b));
  }

  /** From a page in range, an enabled button targets a page that is still in range. */
  lemma EnabledTargetInRange(page: int, totalPages: int, b: Button)
    requires 1 <= page <= totalPages
    requires !Disabled(page, totalPages, b)
    ensures 1 <= TargetPage(page, b) <= totalPages
  {
  }

  /** On a single page both buttons are disabled. */
  lemma SinglePageDisablesBoth(page: int, totalPages: int)
    requires page == 1 && totalPages <= 1
    ensures Disabled(page, totalPages, Previous) && Disabled(page, totalPages, Next)
  {
  }
}
