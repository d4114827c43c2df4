/**
 * The filter bar above the recipe list: category, appliance and status
 * badges that toggle a query parameter, a search box, and a button that
 * clears everything. Each handler copies the current query parameters,
 * changes one of them and navigates to `/recettes` with the result, so the
 * parameters the bar reads are those the last handler produced.
 */
module RecipeFilters {
  import opened Wrappers
  import opened Strings
  import opened SearchParams
  import opened RecipeTypes

  /** `hasFilters`: some filter parameter or the search is set to a non-empty value. */
  predicate HasFilters(p: Params) {
    IsSet(p, "category") || IsSet(p, "appliance") || IsSet(p, "status") || IsSet(p, "search")
  }

  /** Every value a badge can set is a non-empty name. */
  lemma BadgeNamesNonEmpty(c: Category, a: Appliance, s: Status)
    ensures CategoryName(c) != "" && ApplianceName(a) != "" && StatusName(s) != ""
  {
  }

  /** Some filter other than the badge group `name` is set. */
  predicate OtherFilterSet(p: Params, name: string) {
    (name != "category" && IsSet(p, "category")) || (name != "appliance" && IsSet(p, "appliance"))
    || (name != "status" && IsSet(p, "status")) || IsSet(p, "search")
  }

  /**
   * Clicking a badge that is not the active one leaves that filter set, so
   * the clear button shows; clicking the active one leaves the other filters
   * to decide.
   */
  lemma ToggleShowsFilters(p: Params, name: string, value: string)
    requires name == "category" || name == "appliance" || name == "status"
    requires value != ""
    ensures Get(p, name) != Some(value) ==> HasFilters(Toggle(p, name, value))
    ensures Get(p, name) == Some(value) ==> (HasFilters(Toggle(p, name, value)) <==> OtherFilterSet(p, name))
  {
    var q := Toggle(p, name, value);
    ToggleEffect(p, name, value, "category");
    ToggleEffect(p, name, value, "appliance");
    ToggleEffect(p, name, value, "status");
    ToggleEffect(p, name, value, "search");
    assert IsSet(q, name) <==> Get(p, name) != Some(value);
    assert HasFilters(q) <==> IsSet(q, name) || OtherFilterSet(q, name);
    assert OtherFilterSet(q, name) <==> OtherFilterSet(p, name);
  }

  /** A parameter present with an empty value (`?category=`) is not a filter. */
  lemma EmptyValueIsNoFilter()
    ensures !HasFilters([("category", ""), ("search", "")])
  {
  }

  /** The recipe list's filter bar. */
  class RecipeFilterBar {
    /** The query parameters of the page the bar is on. */
    var params: Params
    /** The page the last handler navigated to. */
    var path: string
    /** The search box. */
    var searchValue: string

    /** The bar on `/recettes` with `params`; the box starts with the current search. */
    constructor(params: Params)
      ensures this.params == params && path == "/recettes"
      ensures searchValue == Get(params, "search").GetOr("")
    {
      this.params := params;
      path := "/recettes";
      searchValue := Get(params, "search").GetOr("");
    }

    /** `handleCategoryClick`. */
    method CategoryClick(c: Category)
      modifies this`params, this`path
      ensures params == Toggle(old(params), "category", CategoryName(c))
      ensures path == "/recettes"
    {
      var next := params;
      if Get(next, "category") == Some(CategoryName(c)) {
        next := Delete(next, "category");
      } else {
        next := Set(next, "category", CategoryName(c));
      }
      params, path := next, "/recettes";
    }

    /** `handleApplianceClick`. */
    method ApplianceClick(a: Appliance)
      modifies this`params, this`path
      ensures params == Toggle(old(params), "appliance", ApplianceName(a))
      ensures path == "/recettes"
    {
      var next := params;
      if Get(next, "appliance") == Some(ApplianceName(a)) {
        next := Delete(next, "appliance");
      } else {
        next := Set(next, "appliance", ApplianceName(a));
      }
      params, path := next, "/recettes";
    }

    /** `handleStatusClick`. */
    method StatusClick(s: Status)
      modifies this`params, this`path
      ensures params == Toggle(old(params), "status", StatusName(s))
      ensures path == "/recettes"
    {
      var next := params;
      if Get(next, "status") == Some(StatusName(s)) {
        next := Delete(next, "status");
      } else {
        next := Set(next, "status", StatusName(s));
      }
      params, path := next, "/recettes";
    }

    /** Typing in the search box. */
    method SearchInput(text: string)
      modifies this`searchValue
      ensures searchValue == text
    {
      searchValue := text;
    }

    /** `handleSearchSubmit`. */
    method SearchSubmit()
      modifies this`params, this`path
      ensures params == WithSearch(old(params), searchValue)
      ensures path == "/recettes"
    {
      var next := params;
      var t := Trim(searchValue);
      if t != "" {
        next := Set(next, "search", t);
      } else {
        next := Delete(next, "search");
      }
      params, path := next, "/recettes";
    }

    /** `handleClearFilters`: an empty box and `/recettes` with no parameters. */
    method ClearFilters()
      modifies this`params, this`path, this`searchValue
      ensures params == [] && path == "/recettes" && searchValue == ""
      ensures !HasFilters(params)
    {
      searchValue := "";
      params, path := [], "/recettes";
    }
  }
}
