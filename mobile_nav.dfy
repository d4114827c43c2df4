/**
 * The bottom navigation bar on small screens. It lists the same links as
 * the desktop header, in the same order, and carries its own copy of the
 * highlight rule, which is shown here to agree with the header's.
 */
module MobileNav {
  import opened Strings
  import opened Seqs
  import DesktopHeader

  /** The hrefs of the bar's `navItems`, in display order. */
  const NavItems: seq<string> := ["/recettes", "/favoris", "/recettes/new", "/videos", "/famille"]

  /** The bar's `isActive(href)` against `pathname`: the header's rule, link for link and path for path. */
  function IsActive(pathname: string, href: string): (b: bool)
    ensures b == DesktopHeader.IsActive(pathname, href)
  {
    if href == "/recettes/new" then pathname == "/recettes/new"
    else if href == "/favoris" then pathname == "/favoris"
    else if href == "/videos" then pathname == "/videos" || StartsWith(pathname, "/videos/")
    else if href == "/famille" then pathname == "/famille" || StartsWith(pathname, "/famille/")
    else if href == "/recettes" then pathname == "/recettes" || StartsWith(pathname, "/recettes/")
    else StartsWith(pathname, href)
  }

  /** The items the bar highlights on `pathname`, in display order. */
  function ActiveItems(pathname: string): seq<string> {
    Filter(NavItems, href => IsActive(pathname, href))
  }

  /**
   * The bar highlights the same items as the header: on `/recettes/new`
   * two of them, elsewhere at most one; sections match only on a `/` boundary.
   */
  lemma SameHighlightsAsHeader(pathname: string)
    ensures NavItems == DesktopHeader.NavItems
    ensures ActiveItems(pathname) == DesktopHeader.ActiveItems(pathname)
    ensures ActiveItems("/recettes/new") == ["/recettes", "/recettes/new"]
    ensures pathname != "/recettes/new" ==> |ActiveItems(pathname)| <= 1
    ensures !IsActive("/videosx", "/videos")
  {
    FilterSameTest(NavItems, href => IsActive(pathname, href), href => DesktopHeader.IsActive(pathname, href));
    var n := "/recettes/new";
    FilterSameTest(NavItems, href => IsActive(n, href), href => DesktopHeader.IsActive(n, href));
    DesktopHeader.AtMostOneActiveElsewhere(pathname);
    DesktopHeader.SectionActive("/videosx", "/videos");
  }
}
