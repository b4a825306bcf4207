// The header navigation bar: its three links for the current locale, which
// of them is highlighted, and the mobile menu toggle.
module Navigation {
  import opened PathSegments

  datatype NavLink = NavLink(href: string, key: string)

  /** The home, game and image-AI links, in display order. */
  function NavLinks(locale: string): (r: seq<NavLink>)
    ensures |r| == 3
    ensures forall i :: 0 <= i < |r| ==> "/" + locale <= r[i].href
  {
    [ NavLink("/" + locale, "home"),
      NavLink("/" + locale + "/game", "game"),
      NavLink("/" + locale + "/image-ai", "imageAI") ]
  }

  /** The links the bar shows on `pathname`. */
  function LinksFor(pathname: string): (r: seq<NavLink>)
    ensures |r| == 3 && r[0].href == "/" + LocaleOf(pathname)
    ensures forall i :: 0 <= i < |r| ==> "/" + LocaleOf(pathname) <= r[i].href
  {
    NavLinks(LocaleOf(pathname))
  }

  /**
   * `isActive(href)`: the home link is highlighted on the bare locale path
   * and on the site root; any other link when the path starts with its href.
   */
  predicate IsActive(pathname: string, href: string)
  {
    var locale := LocaleOf(pathname);
    if href == "/" + locale then pathname == "/" + locale || pathname == "/"
    else href <= pathname
  }

  /** Whatever the path, no two of the three links are highlighted together. */
  lemma AtMostOneActive(pathname: string)
    ensures var links := LinksFor(pathname);
            forall i, j :: 0 <= i < j < |links| ==>
              !(IsActive(pathname, links[i].href) && IsActive(pathname, links[j].href))
  {
    var home := "/" + LocaleOf(pathname);
    var links := LinksFor(pathname);
    assert |links[1].href| == |home| + 5 && links[1].href[|home| + 1] == 'g';
    assert |links[2].href| == |home| + 9 && links[2].href[|home| + 1] == 'i';
  }

  /** The site root highlights the English home link and nothing else. */
  lemma RootHighlightsHome()
    ensures LinksFor("/")[0].href == "/en"
    ensures IsActive("/", "/en")
    ensures !IsActive("/", "/en/game") && !IsActive("/", "/en/image-ai")
  {
    LocaleOfPath([], [], []);
    assert "/" == [] + [Separator] + [] + [];
  }

  /** On `/<locale>` the home link is highlighted. */
  lemma HomeActiveOnLocale(l: string)
    requires l != [] && Separator !in l
    ensures IsActive("/" + l, LinksFor("/" + l)[0].href)
  {
    LocaleOfPath([], l, []);
    assert "/" + l == [] + [Separator] + l + [];
  }

  /** On `/<locale>/game...` the game link is highlighted. */
  lemma GameActiveOnGamePaths(l: string, rest: string)
    requires l != [] && Separator !in l
    ensures IsActive("/" + l + "/game" + rest, LinksFor("/" + l + "/game" + rest)[1].href)
  {
    var p := "/" + l + "/game" + rest;
    LocaleOfPath([], l, "/game" + rest);
    assert p == [] + [Separator] + l + ("/game" + rest);
    assert "/" + l + "/game" <= p;
  }

  /** On `/<locale>/image-ai...` the image-AI link is highlighted. */
  lemma ImageAiActiveOnImageAiPaths(l: string, rest: string)
    requires l != [] && Separator !in l
    ensures IsActive("/" + l + "/image-ai" + rest, LinksFor("/" + l + "/image-ai" + rest)[2].href)
  {
    var p := "/" + l + "/image-ai" + rest;
    LocaleOfPath([], l, "/image-ai" + rest);
    assert p == [] + [Separator] + l + ("/image-ai" + rest);
    assert "/" + l + "/image-ai" <= p;
  }

  /** The mobile menu's open flag. */
  class Menu {
    var isMenuOpen: bool

    constructor ()
      ensures !isMenuOpen
    {
      isMenuOpen := false;
    }

    /** The menu button flips the menu. */
    method ToggleMenu()
      modifies this
      ensures isMenuOpen == !old(isMenuOpen)
    {
      isMenuOpen := !isMenuOpen;
    }

    /** Following a link in the mobile menu closes it. */
    method ChooseMobileLink()
      modifies this
      ensures !isMenuOpen
    {
      isMenuOpen := false;
    }
  }
}
