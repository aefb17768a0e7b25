/**
 * What the two listing endpoints share: the response they send and the way
 * they read `page`, `limit` and `search` from the request URL.
 */
module Listing {
  import opened Base
  import opened Text
  import JsNumber
  import Uri
  import opened Paging

  /** A JSON response: a page of items with its pagination, or an error status. */
  datatype Response<T> = Page(items: seq<T>, pagination: Pagination) | Failure(status: int, error: string)

  /** `parseInt(searchParams.get(name) || fallback)`. */
  function IntParam(url: string, name: string, fallback: string): Option<int> {
    JsNumber.ParseInt(OrDefault(Uri.GetParam(url, name), fallback))
  }

  /** `searchParams.get(name) || ''`. */
  function TextParam(url: string, name: string): string {
    OrEmpty(Uri.GetParam(url, name))
  }

  /** The characters a regular expression gives a meaning of their own. */
  predicate IsRegexMeta(c: char) {
    c in "\\^$.|?*+()[]{}"
  }

  /** A search text that a regular expression matches literally. */
  predicate IsLiteral(s: string) {
    forall i :: 0 <= i < |s| ==> !IsRegexMeta(s[i])
  }

  /**
   * `{ $regex: search, $options: 'i' }` on one field, for a literal search:
   * the field is present and contains the search, ignoring case.
   */
  predicate RegexMatches(field: Option<string>, search: string) {
    field.Some? && ContainsIgnoreCase(field.value, search)
  }

  /** A request whose `page` and `limit` read as positive numbers and whose search is literal. */
  predicate Serviceable(url: string) {
    var page := IntParam(url, "page", "1");
    var limit := IntParam(url, "limit", "10");
    page.Some? && page.value >= 1 && limit.Some? && limit.value >= 1
    && IsLiteral(TextParam(url, "search"))
  }

  /** Missing or empty parameters read as `page=1`, `limit=10`, `search=''`. */
  lemma DefaultParams(url: string)
    requires !Truthy(Uri.GetParam(url, "page")) && !Truthy(Uri.GetParam(url, "limit"))
    requires !Truthy(Uri.GetParam(url, "search"))
    ensures IntParam(url, "page", "1") == Some(1)
    ensures IntParam(url, "limit", "10") == Some(10)
    ensures TextParam(url, "search") == ""
    ensures Serviceable(url)
  {
    JsNumber.ParseIntOfIntToString(1);
    JsNumber.ParseIntOfIntToString(10);
    assert JsNumber.IntToString(1) == "1";
    assert JsNumber.IntToString(10) == "10";
  }
}
