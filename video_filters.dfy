/**
 * The filter bar above the video list: category badges that toggle the
 * `category` parameter, a search box, and a button that clears both. The
 * handlers follow the recipe filter bar's rules and navigate to `/videos`.
 */
module VideoFilters {
  import opened Wrappers
  import opened Strings
  import opened SearchParams
  import opened RecipeTypes

  /** `hasFilters`: a category or a search is set to a non-empty value. */
  predicate HasFilters(p: Params) {
    IsSet(p, "category") || IsSet(p, "search")
  }

  /**
   * Only the category and the search decide the clear button: the filters of
   * the recipe list, if present in the query, are ignored here.
   */
  lemma OtherParamsIgnored(p: Params, name: string, value: string)
    requires name != "category" && name != "search"
    ensures HasFilters(Set(p, name, value)) == HasFilters(p)
    ensures HasFilters(Delete(p, name)) == HasFilters(p)
  {
    GetAfterSet(p, name, value, "category");
    GetAfterSet(p, name, value, "search");
    GetAfterDelete(p, name, "category");
    GetAfterDelete(p, name, "search");
  }

  /** After a search submit, the button shows exactly when the box held more than whitespace or a category is set. */
  lemma SearchShowsFilters(p: Params, box: string)
    ensures HasFilters(WithSearch(p, box)) <==> !AllSpace(box) || IsSet(p, "category")
  {
    WithSearchEffect(p, box, "search");
    WithSearchEffect(p, box, "category");
  }

  /** The video list's filter bar. */
  class VideoFilterBar {
    /** The query parameters of the page the bar is on. */
    var params: Params
    /** The page the last handler navigated to. */
    var path: string
    /** The search box. */
    var searchValue: string

    /** The bar on `/videos` with `params`; the box starts with the current search. */
    constructor(params: Params)
      ensures this.params == params && path == "/videos"
      ensures searchValue == Get(params, "search").GetOr("")
    {
      this.params := params;
      path := "/videos";
      searchValue := Get(params, "search").GetOr("");
    }

    /** `handleCategoryClick`. */
    method CategoryClick(c: Category)
      modifies this`params, this`path
      ensures params == Toggle(old(params), "category", CategoryName(c))
      ensures path == "/videos"
    {
      var next := params;
      if Get(next, "category") == Some(CategoryName(c)) {
        next := Delete(next, "category");
      } else {
        next := Set(next, "category", CategoryName(c));
      }
      params, path := next, "/videos";
    }

    /** Typing in the search box. */
    method SearchInput(text: string)
      modifies this`searchValue
      ensures searchValue == text
    {
      searchValue := text;
    }

    /** `handleSearchSubmit`. */
    method SearchSubmit()
      modifies this`params, this`path
      ensures params == WithSearch(old(params), searchValue)
      ensures path == "/videos"
    {
      var next := params;
      var t := Trim(searchValue);
      if t != "" {
        next := Set(next, "search", t);
      } else {
        next := Delete(next, "search");
      }
      params, path := next, "/videos";
    }

    /** `handleClearFilters`: an empty box and `/videos` with no parameters. */
    method ClearFilters()
      modifies this`params, this`path, this`searchValue
      ensures params == [] && path == "/videos" && searchValue == ""
      ensures !HasFilters(params)
    {
      searchValue := "";
      params, path := [], "/videos";
    }
  }
}
