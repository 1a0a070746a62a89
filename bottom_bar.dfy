/**
 * The navigation bar at the bottom of every signed-in page: home and members, with the item for
 * the current page highlighted.
 */
module BottomBar {
  import opened JsStrings

  datatype NavItem = NavItem(href: string, title: string)

  /** `navItems`: home first, then members. */
  const NavItems: seq<NavItem> := [NavItem("/", "ホーム"), NavItem("/members", "メンバー")]

  /** `isActive`: the home item only on the home page itself, any other item on every page under it. */
  predicate IsActive(item: NavItem, pathname: string) {
    if item.href == "/" then pathname == "/" else StartsWith(pathname, item.href)
  }

  /** Which items are highlighted, in the bar's order. */
  function Highlighted(pathname: string): (r: seq<bool>)
    ensures |r| == |NavItems|
    ensures r[0] <==> pathname == "/"
    ensures r[1] <==> StartsWith(pathname, "/members")
  {
    seq(|NavItems|, i requires 0 <= i < |NavItems| => IsActive(NavItems[i], pathname))
  }

  /** At most one item is highlighted on any page. */
  lemma AtMostOneActive(pathname: string)
    ensures forall i, j :: 0 <= i < j < |NavItems| ==> !(IsActive(NavItems[i], pathname) && IsActive(NavItems[j], pathname))
  {
    if pathname == "/" {
      assert !StartsWith(pathname, "/members") by {
        assert |pathname| < |"/members"|;
      }
    }
  }

  /** Every page under the members page, not only the page itself, highlights the members item. */
  lemma MembersSubpagesActive(suffix: string)
    ensures Highlighted("/members" + suffix)[1]
  {
    assert ("/members" + suffix)[..|"/members"|] == "/members";
  }
}
