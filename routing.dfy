/** The client-side route table: which page a path renders, and the header's
    navigation items. */
module Routing {

  datatype Page = Home | About | Resume | Services | Portfolio | Contact

  /** The six navigable paths, in header order. */
  const NavPaths: seq<string> := ["/", "/about", "/resume", "/services", "/portfolio", "/contact"]
  /** The page each navigable path is meant to show, in the same order. */
  const NavPages: seq<Page> := [Home, About, Resume, Services, Portfolio, Contact]

  /** `renderPage`: the `switch` over the pathname, falling back to the home page. */
  function RenderPage(path: string): (page: Page)
    ensures forall i :: 0 <= i < |NavPaths| && path == NavPaths[i] ==> page == NavPages[i]
    ensures path !in NavPaths ==> page == Home
  {
    match path
    case "/" => Home
    case "/about" => About
    case "/resume" => Resume
    case "/services" => Services
    case "/portfolio" => Portfolio
    case "/contact" => Contact
    case _ => Home
  }

  datatype NavItem = NavItem(caption: string, to: string)

  /** The header's items: the i-th localized label links to the i-th path. */
  function NavItems(labels: seq<string>): (items: seq<NavItem>)
    requires |labels| >= 6
    ensures |items| == 6
    ensures forall i :: 0 <= i < 6 ==> items[i].caption == labels[i]
    ensures forall i :: 0 <= i < 6 ==> RenderPage(items[i].to) == NavPages[i]
  {
    seq(6, i requires 0 <= i < 6 => NavItem(labels[i], NavPaths[i]))
  }

  /** Every path off the table renders the home page; the five other pages are
      reached only through their own path. */
  lemma RenderPageTotal(path: string)
    ensures path !in NavPaths ==> RenderPage(path) == Home
    ensures RenderPage(path) != Home ==> path in NavPaths[1..]
  {
  }

  /** Each navigation item renders its own page, and no two items render the
      same page. */
  lemma NavItemsRenderTheirPages(labels: seq<string>)
    requires |labels| >= 6
    ensures forall i :: 0 <= i < 6 ==> RenderPage(NavItems(labels)[i].to) == NavPages[i]
    ensures forall i, j :: 0 <= i < j < 6 ==> RenderPage(NavItems(labels)[i].to) != RenderPage(NavItems(labels)[j].to)
  {
    var items := NavItems(labels);
    assert RenderPage(NavPaths[0]) == Home;
    assert RenderPage(NavPaths[1]) == About;
    assert RenderPage(NavPaths[2]) == Resume;
    assert RenderPage(NavPaths[3]) == Services;
    assert RenderPage(NavPaths[4]) == Portfolio;
    assert RenderPage(NavPaths[5]) == Contact;
  }
}
