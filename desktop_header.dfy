/**
 * The desktop header's navigation: which of its links is highlighted for
 * the current path. "New recipe" and "Favourites" match their own page
 * only; "Videos", "Family" and "My recipes" match their page and every page
 * below it; any other link would match by plain prefix.
 */
module DesktopHeader {
  import opened Strings
  import opened Seqs

  /** The hrefs of `navItems`, in display order. */
  const NavItems: seq<string> := ["/recettes", "/favoris", "/recettes/new", "/videos", "/famille"]

  /** The hrefs whose highlight covers the pages below them. */
  predicate IsSection(href: string) {
    href == "/videos" || href == "/famille" || href == "/recettes"
  }

  /** The hrefs highlighted on their own page only. */
  predicate IsExactOnly(href: string) {
    href == "/recettes/new" || href == "/favoris"
  }

  /** `isActive(href)` against `pathname`. */
  function IsActive(pathname: string, href: string): bool {
    if href == "/recettes/new" then pathname == "/recettes/new"
    else if href == "/favoris" then pathname == "/favoris"
    else if href == "/videos" then pathname == "/videos" || StartsWith(pathname, "/videos/")
    else if href == "/famille" then pathname == "/famille" || StartsWith(pathname, "/famille/")
    else if href == "/recettes" then pathname == "/recettes" || StartsWith(pathname, "/recettes/")
    else StartsWith(pathname, href)
  }

  /**
   * A section link is highlighted exactly on paths made of its href followed
   * by nothing or by a `/`-led rest, so `/videosx` does not highlight `/videos`.
   */
  lemma SectionActive(pathname: string, href: string)
    requires IsSection(href)
    ensures IsActive(pathname, href) <==>
      StartsWith(pathname, href) && (|pathname| == |href| || pathname[|href|] == '/')
  {
    if StartsWith(pathname, href) && |pathname| > |href| && pathname[|href|] == '/' {
      assert pathname[..|href| + 1] == href + "/";
    }
    if StartsWith(pathname, href + "/") {
      assert pathname[..|href|] == (href + "/")[..|href|];
    }
  }

  /** An exact-only link is highlighted on its own page and nowhere else, not even below it. */
  lemma ExactOnlyActive(pathname: string, href: string)
    requires IsExactOnly(href)
    ensures IsActive(pathname, href) <==> pathname == href
  {
  }

  /** Every listed item is handled by an explicit branch; the prefix fallback serves only other hrefs. */
  lemma ListedItemsExplicit()
    ensures forall href <- NavItems :: IsSection(href) || IsExactOnly(href)
    ensures forall href :: !IsSection(href) && !IsExactOnly(href) ==>
      forall pathname :: IsActive(pathname, href) == StartsWith(pathname, href)
  {
  }

  /** The listed items highlighted on `pathname`, in display order. */
  function ActiveItems(pathname: string): seq<string> {
    Filter(NavItems, href => IsActive(pathname, href))
  }

  /** No path lies under two different sections. */
  lemma SectionsDisjoint(pathname: string, a: string, b: string)
    requires IsSection(a) && IsSection(b) && a != b
    ensures !(IsActive(pathname, a) && IsActive(pathname, b))
  {
    if IsActive(pathname, a) && IsActive(pathname, b) {
      SectionActive(pathname, a);
      SectionActive(pathname, b);
      assert false;
    }
  }

  /**
   * On `/recettes/new` both "My recipes" and "New recipe" are highlighted;
   * on any other path at most one item is.
   */
  lemma AtMostOneActiveElsewhere(pathname: string)
    ensures ActiveItems("/recettes/new") == ["/recettes", "/recettes/new"]
    ensures pathname != "/recettes/new" ==> |ActiveItems(pathname)| <= 1
  {
    NewRecipeActive();
    if pathname != "/recettes/new" {
      SectionsDisjoint(pathname, "/recettes", "/videos");
      SectionsDisjoint(pathname, "/recettes", "/famille");
      SectionsDisjoint(pathname, "/videos", "/famille");
      OneActiveCounts(pathname);
    }
  }

  /** The items highlighted on the new-recipe page. */
  lemma NewRecipeActive()
    ensures ActiveItems("/recettes/new") == ["/recettes", "/recettes/new"]
  {
    var n := "/recettes/new";
    assert StartsWith(n, "/recettes/") by {
      assert n[..|"/recettes/"|] == "/recettes/";
    }
    assert !StartsWith(n, "/videos/") by {
      assert n[1] != "/videos/"[1];
    }
    assert !StartsWith(n, "/famille/") by {
      assert n[1] != "/famille/"[1];
    }
    ActiveItemsUnrolled(n);
  }

  /** With at most one listed item active, the filtered list has at most one entry. */
  lemma OneActiveCounts(pathname: string)
    requires pathname != "/recettes/new"
    requires !(IsActive(pathname, "/recettes") && IsActive(pathname, "/videos"))
    requires !(IsActive(pathname, "/recettes") && IsActive(pathname, "/famille"))
    requires !(IsActive(pathname, "/videos") && IsActive(pathname, "/famille"))
    ensures |ActiveItems(pathname)| <= 1
  {
    ActiveCount(pathname);
    if pathname == "/favoris" {
      assert !IsActive(pathname, "/recettes") && !IsActive(pathname, "/videos") && !IsActive(pathname, "/famille") by {
        assert pathname[1] == 'f' && "/recettes/"[1] == 'r' && "/videos/"[1] == 'v';
      }
    }
  }

  /** The highlighted items, item by item in display order. */
  lemma ActiveItemsUnrolled(pathname: string)
    ensures ActiveItems(pathname) ==
      (if IsActive(pathname, "/recettes") then ["/recettes"] else [])
      + ((if IsActive(pathname, "/favoris") then ["/favoris"] else [])
      + ((if IsActive(pathname, "/recettes/new") then ["/recettes/new"] else [])
      + ((if IsActive(pathname, "/videos") then ["/videos"] else [])
      + (if IsActive(pathname, "/famille") then ["/famille"] else []))))
  {
    FilterFive(NavItems, href => IsActive(pathname, href));
  }

  /** One for a highlighted item, zero otherwise. */
  function Ones(active: bool): nat {
    if active then 1 else 0
  }

  /** The number of highlighted items, counted item by item. */
  lemma ActiveCount(pathname: string)
    ensures |ActiveItems(pathname)| ==
      Ones(IsActive(pathname, "/recettes")) + Ones(IsActive(pathname, "/favoris"))
      + Ones(IsActive(pathname, "/recettes/new")) + Ones(IsActive(pathname, "/videos"))
      + Ones(IsActive(pathname, "/famille"))
  {
    ActiveItemsUnrolled(pathname);
  }
}
