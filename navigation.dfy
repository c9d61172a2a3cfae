/**
 * Sidebar, breadcrumb and module-page rendering of assets/js/main.js:
 * `renderNavigationItems`, `updateBreadcrumb` and the breadcrumb that
 * `initializeModulePage` produces.
 */
module Navigation {
  import opened Wrappers
  import opened Markup
  import opened Routing
  import opened Renderers
  import opened Dispatch

  /**
   * One entry of the sidebar tree; absent fields are `None`. An absent
   * `children` list is the empty one: the two are treated alike.
   */
  datatype NavItem = NavItem(
    id: Option<string>,
    title: Option<string>,
    url: Option<string>,
    icon: Option<string>,
    badge: Option<string>,
    children: seq<NavItem>)

  /** `item.children && item.children.length > 0` */
  predicate HasChildren(item: NavItem) {
    |item.children| > 0
  }

  /** The link classes that mark the active entry. */
  function ActiveClass(active: bool): string {
    if active then "bg-primary-orange text-white" else "text-gray-700"
  }

  function OptionalIcon(icon: Option<string>): Fragment {
    if Truthy(icon) then El("i", [Attr("class", icon.value)], []) else []
  }

  function OptionalBadge(badge: Option<string>): Fragment {
    if Truthy(badge) then El("span", [], [Val(badge.value)]) else []
  }

  /** One entry: a collapsible group for an item with children, a link otherwise. */
  function RenderNavItem(item: NavItem, currentPath: string): Fragment
    decreases item
  {
    if HasChildren(item) then
      var kids := item.children;
      El("li", [],
        El("button", [Attr("onclick", "toggleNavGroup('" + Show(item.id) + "')")],
          OptionalIcon(item.icon)
          + El("span", [], [Val(Show(item.title))])
          + El("i", [Attr("class", "fas fa-chevron-down"), Attr("id", Show(item.id) + "-chevron")], []))
        + El("ul", [Attr("id", Show(item.id) + "-children"), Attr("class", "hidden")],
             Join(seq(|kids|, i requires 0 <= i < |kids| => RenderNavItem(kids[i], currentPath)))))
    else
      El("li", [],
        El("a", [Attr("href", Show(item.url)), Attr("class", ActiveClass(IsActiveNavItem(item.url, currentPath)))],
          OptionalIcon(item.icon) + El("span", [], [Val(Show(item.title))]) + OptionalBadge(item.badge)))
  }

  function NavParts(items: seq<NavItem>, currentPath: string): (r: seq<Fragment>)
    ensures |r| == |items|
    ensures forall i :: 0 <= i < |items| ==> r[i] == RenderNavItem(items[i], currentPath)
  {
    seq(|items|, i requires 0 <= i < |items| => RenderNavItem(items[i], currentPath))
  }

  /** `renderNavigationItems(items)` on the page at `currentPath`. */
  function RenderNavItems(items: seq<NavItem>, currentPath: string): Fragment {
    Join(NavParts(items, currentPath))
  }

  /** A group's nested list is the rendering of its children. */
  lemma GroupBody(item: NavItem, currentPath: string)
    requires HasChildren(item)
    ensures RenderNavItem(item, currentPath)
         == El("li", [],
              El("button", [Attr("onclick", "toggleNavGroup('" + Show(item.id) + "')")],
                OptionalIcon(item.icon)
                + El("span", [], [Val(Show(item.title))])
                + El("i", [Attr("class", "fas fa-chevron-down"), Attr("id", Show(item.id) + "-chevron")], []))
              + El("ul", [Attr("id", Show(item.id) + "-children"), Attr("class", "hidden")],
                   RenderNavItems(item.children, currentPath)))
  {
    var kids := item.children;
    assert seq(|kids|, i requires 0 <= i < |kids| => RenderNavItem(kids[i], currentPath)) == NavParts(kids, currentPath);
  }

  function Sum(xs: seq<nat>): nat
    decreases |xs|
  {
    if xs == [] then 0 else xs[0] + Sum(xs[1..])
  }

  /** The number of leaves under an entry: itself when it has no children. */
  function ItemLeafCount(item: NavItem): nat
    decreases item
  {
    if HasChildren(item) then
      var kids := item.children;
      Sum(seq(|kids|, i requires 0 <= i < |kids| => ItemLeafCount(kids[i])))
    else 1
  }

  function LeafCounts(items: seq<NavItem>): (r: seq<nat>)
    ensures |r| == |items|
    ensures forall i :: 0 <= i < |items| ==> r[i] == ItemLeafCount(items[i])
  {
    seq(|items|, i requires 0 <= i < |items| => ItemLeafCount(items[i]))
  }

  /** The number of leaves of the tree. */
  function LeafCount(items: seq<NavItem>): nat {
    Sum(LeafCounts(items))
  }

  lemma {:induction false} SumCountsIsSum(parts: seq<Fragment>, counts: seq<nat>, tag: string)
    requires |parts| == |counts|
    requires forall i :: 0 <= i < |parts| ==> CountOpen(parts[i], tag) == counts[i]
    ensures SumCounts(parts, tag) == Sum(counts)
    decreases |parts|
  {
    if parts != [] {
      SumCountsIsSum(parts[1..], counts[1..], tag);
    }
  }

  lemma IconAndBadgeHaveNoLinks(item: NavItem)
    ensures CountOpen(OptionalIcon(item.icon), "a") == 0
    ensures CountOpen(OptionalBadge(item.badge), "a") == 0
  {
    if Truthy(item.icon) { CountOpenEl("i", [Attr("class", item.icon.value)], [], "a"); }
    if Truthy(item.badge) { CountOpenEl("span", [], [Val(item.badge.value)], "a"); }
  }

  /** The sidebar renders exactly one link per leaf of the tree. */
  lemma LinksAreLeaves(items: seq<NavItem>, currentPath: string)
    ensures CountOpen(RenderNavItems(items, currentPath), "a") == LeafCount(items)
  {
    forall i | 0 <= i < |items|
      ensures CountOpen(NavParts(items, currentPath)[i], "a") == LeafCounts(items)[i]
    {
      ItemLinks(items[i], currentPath);
    }
    CountOpenJoin(NavParts(items, currentPath), "a");
    SumCountsIsSum(NavParts(items, currentPath), LeafCounts(items), "a");
  }

  lemma {:induction false} ItemLinks(item: NavItem, currentPath: string)
    ensures CountOpen(RenderNavItem(item, currentPath), "a") == ItemLeafCount(item)
    decreases item
  {
    IconAndBadgeHaveNoLinks(item);
    var title := El("span", [], [Val(Show(item.title))]);
    CountOpenEl("span", [], [Val(Show(item.title))], "a");
    if HasChildren(item) {
      var kids := item.children;
      forall i | 0 <= i < |kids|
        ensures CountOpen(NavParts(kids, currentPath)[i], "a") == LeafCounts(kids)[i]
      {
        ItemLinks(kids[i], currentPath);
      }
      CountOpenJoin(NavParts(kids, currentPath), "a");
      SumCountsIsSum(NavParts(kids, currentPath), LeafCounts(kids), "a");
      assert seq(|kids|, i requires 0 <= i < |kids| => ItemLeafCount(kids[i])) == LeafCounts(kids);
      GroupBody(item, currentPath);
      var chevron := El("i", [Attr("class", "fas fa-chevron-down"), Attr("id", Show(item.id) + "-chevron")], []);
      CountOpenEl("i", [Attr("class", "fas fa-chevron-down"), Attr("id", Show(item.id) + "-chevron")], [], "a");
      CountOpenCat3(OptionalIcon(item.icon), title, chevron, "a");
      var button := El("button", [Attr("onclick", "toggleNavGroup('" + Show(item.id) + "')")], OptionalIcon(item.icon) + title + chevron);
      CountOpenEl("button", [Attr("onclick", "toggleNavGroup('" + Show(item.id) + "')")], OptionalIcon(item.icon) + title + chevron, "a");
      var nested := RenderNavItems(kids, currentPath);
      CountOpenEl("ul", [Attr("id", Show(item.id) + "-children"), Attr("class", "hidden")], nested, "a");
      var list := El("ul", [Attr("id", Show(item.id) + "-children"), Attr("class", "hidden")], nested);
      CountOpenAppend(button, list, "a");
      CountOpenEl("li", [], button + list, "a");
    } else {
      var body := OptionalIcon(item.icon) + title + OptionalBadge(item.badge);
      CountOpenCat3(OptionalIcon(item.icon), title, OptionalBadge(item.badge), "a");
      var attrs := [Attr("href", Show(item.url)), Attr("class", ActiveClass(IsActiveNavItem(item.url, currentPath)))];
      CountOpenEl("a", attrs, body, "a");
      CountOpenEl("li", [], El("a", attrs, body), "a");
    }
  }

  /**
   * A group renders a toggle button for its id, the chevron `<id>-chevron`
   * and the nested list `<id>-children`, which starts hidden; a leaf renders
   * a link whose styling says whether it is the active page.
   */
  lemma ItemShape(item: NavItem, currentPath: string)
    ensures HasChildren(item) ==>
      var m := RenderNavItem(item, currentPath);
      && m[1] == Open("button", [Attr("onclick", "toggleNavGroup('" + Show(item.id) + "')")])
      && Open("i", [Attr("class", "fas fa-chevron-down"), Attr("id", Show(item.id) + "-chevron")]) in m
      && Open("ul", [Attr("id", Show(item.id) + "-children"), Attr("class", "hidden")]) in m
    ensures !HasChildren(item) ==>
      RenderNavItem(item, currentPath)[1]
        == Open("a", [Attr("href", Show(item.url)), Attr("class", ActiveClass(IsActiveNavItem(item.url, currentPath)))])
  {
    if HasChildren(item) {
      var title := El("span", [], [Val(Show(item.title))]);
      var chevron := El("i", [Attr("class", "fas fa-chevron-down"), Attr("id", Show(item.id) + "-chevron")], []);
      var button := El("button", [Attr("onclick", "toggleNavGroup('" + Show(item.id) + "')")], OptionalIcon(item.icon) + title + chevron);
      var list := El("ul", [Attr("id", Show(item.id) + "-children"), Attr("class", "hidden")], RenderNavItems(item.children, currentPath));
      GroupBody(item, currentPath);
      assert RenderNavItem(item, currentPath) == El("li", [], button + list);
      assert chevron[0] in button;
    }
  }

  // updateBreadcrumb

  datatype Crumb = Crumb(title: Option<string>, url: Option<string>)

  /** The markup of entry `index`: the last entry is plain text, every other one a link and a chevron. */
  function CrumbMarkup(items: seq<Crumb>, index: nat): Fragment
    requires index < |items|
  {
    if index == |items| - 1 then El("span", [], [Val(Show(items[index].title))])
    else El("a", [Attr("href", Show(items[index].url))], [Val(Show(items[index].title))])
         + El("i", [Attr("class", "fas fa-chevron-right")], [])
  }

  function CrumbParts(items: seq<Crumb>): (r: seq<Fragment>)
    ensures |r| == |items|
    ensures forall i :: 0 <= i < |items| ==> r[i] == CrumbMarkup(items, i)
  {
    seq(|items|, i requires 0 <= i < |items| => CrumbMarkup(items, i))
  }

  function BreadcrumbMarkup(items: seq<Crumb>): Fragment {
    Join(CrumbParts(items))
  }

  lemma CrumbCounts(items: seq<Crumb>, i: nat, tag: string)
    requires i < |items| && (tag == "a" || tag == "i" || tag == "span")
    ensures CountOpen(CrumbMarkup(items, i), tag)
         == if i == |items| - 1 then (if tag == "span" then 1 else 0) else (if tag == "span" then 0 else 1)
  {
    var title := [Val(Show(items[i].title))];
    if i == |items| - 1 {
      CountOpenEl("span", [], title, tag);
    } else {
      CountOpenEl("a", [Attr("href", Show(items[i].url))], title, tag);
      CountOpenEl("i", [Attr("class", "fas fa-chevron-right")], [], tag);
      CountOpenAppend(El("a", [Attr("href", Show(items[i].url))], title), El("i", [Attr("class", "fas fa-chevron-right")], []), tag);
    }
  }

  /**
   * With n >= 1 entries the breadcrumb has n-1 links, each followed by a
   * chevron, and ends with the last entry as plain text; with none it is empty.
   */
  lemma BreadcrumbShape(items: seq<Crumb>)
    ensures items == [] ==> BreadcrumbMarkup(items) == []
    ensures items != [] ==>
      var m := BreadcrumbMarkup(items);
      var last := El("span", [], [Val(Show(items[|items| - 1].title))]);
      && CountOpen(m, "a") == |items| - 1
      && CountOpen(m, "i") == |items| - 1
      && CountOpen(m, "span") == 1
      && |last| <= |m| && m[|m| - |last|..] == last
  {
    if items != [] {
      var n := |items|;
      var parts := CrumbParts(items);
      BreadcrumbSplit(items);
      var m := BreadcrumbMarkup(items);
      var last := parts[n - 1];
      assert m[|m| - |last|..] == last;
      BreadcrumbCount(items, "a");
      BreadcrumbCount(items, "i");
      BreadcrumbCount(items, "span");
    }
  }

  /** The breadcrumb is the markup of all entries but the last, followed by the last one's. */
  lemma BreadcrumbSplit(items: seq<Crumb>)
    requires items != []
    ensures BreadcrumbMarkup(items) == Join(CrumbParts(items)[..|items| - 1]) + CrumbMarkup(items, |items| - 1)
  {
    var n := |items|;
    var parts := CrumbParts(items);
    assert parts == parts[..n - 1] + [parts[n - 1]];
    JoinAppend(parts[..n - 1], [parts[n - 1]]);
    assert Join([parts[n - 1]]) == parts[n - 1] + Join([]);
  }

  lemma BreadcrumbCount(items: seq<Crumb>, tag: string)
    requires items != [] && (tag == "a" || tag == "i" || tag == "span")
    ensures CountOpen(BreadcrumbMarkup(items), tag) == if tag == "span" then 1 else |items| - 1
  {
    var n := |items|;
    var init := CrumbParts(items)[..n - 1];
    BreadcrumbSplit(items);
    forall i | 0 <= i < |init|
      ensures CountOpen(init[i], tag) == if tag == "span" then 0 else 1
    {
      CrumbCounts(items, i, tag);
    }
    if tag == "span" { CountOpenJoinZeros(init, tag); } else { CountOpenJoinOnes(init, tag); }
    CrumbCounts(items, n - 1, tag);
    CountOpenAppend(Join(init), CrumbMarkup(items, n - 1), tag);
  }

  /** The breadcrumb container of the page, when it has one. */
  class Breadcrumb {
    const present: bool
    var markup: Fragment

    constructor (present: bool)
      ensures this.present == present && markup == []
    {
      this.present := present;
      markup := [];
    }

    /** `updateBreadcrumb(items)`: a missing container or an absent list changes nothing. */
    method Update(items: Option<seq<Crumb>>)
      modifies this`markup
      ensures markup == if !present || items.None? then old(markup) else BreadcrumbMarkup(items.value)
    {
      if present && items.Some? {
        markup := BreadcrumbMarkup(items.value);
      }
    }
  }

  // initializeModulePage

  /** What fetching a module's content file yields: a failure of any kind, or its `title` and `components`. */
  datatype ModuleFetch = FetchFailed | Fetched(title: Option<string>, components: Option<seq<Component>>)

  /** The outcome of opening a module page: the rendered content (if any), the breadcrumb, and whether the fallback page was shown. */
  datatype ModulePage = ModulePage(fallback: bool, content: Option<Rendered>, crumbs: seq<Crumb>)

  const HomeCrumb := Crumb(Some("Home"), Some("/index.html"))
  const ModulesCrumb := Crumb(Some("Modules"), Some("/pages/modules.html"))

  function FallbackModulePage(pathname: string): ModulePage {
    ModulePage(true, None, [HomeCrumb, ModulesCrumb, Crumb(Some("Module"), Some(pathname))])
  }

  /**
   * `initializeModulePage` at `pathname`: no number, a failed fetch or a
   * throwing render all land in the catch and show the fallback.
   */
  function OpenModulePage(pathname: string, fetch: string -> ModuleFetch, supply: nat -> Fresh): (r: ModulePage)
    ensures |r.crumbs| == 3 && r.crumbs[0] == HomeCrumb && r.crumbs[1] == ModulesCrumb
    ensures r.crumbs[2].url == Some(pathname)
    ensures r.fallback <==> r == FallbackModulePage(pathname)
  {
    match ModuleNumber(pathname)
    case None => FallbackModulePage(pathname)
    case Some(number) =>
      match fetch(ModuleDataPath(number))
      case FetchFailed => FallbackModulePage(pathname)
      case Fetched(title, components) =>
        var crumbs := [HomeCrumb, ModulesCrumb, Crumb(Some(if Truthy(title) then title.value else "Modul " + number), Some(pathname))];
        if components.None? then ModulePage(false, None, crumbs)
        else
          match RenderComponents(components.value, supply)
          case Err(_) => FallbackModulePage(pathname)
          case Ok(rendered) => ModulePage(false, Some(rendered), crumbs)
  }

  /**
   * A loaded module page shows its own title, or "Modul <n>" when the data
   * has none; one component that throws sends the whole page to the
   * fallback, content and breadcrumb alike.
   */
  lemma ModulePageTitle(pathname: string, fetch: string -> ModuleFetch, supply: nat -> Fresh)
    requires ModuleNumber(pathname).Some?
    requires fetch(ModuleDataPath(ModuleNumber(pathname).value)).Fetched?
    ensures var data := fetch(ModuleDataPath(ModuleNumber(pathname).value));
      var page := OpenModulePage(pathname, fetch, supply);
      && (page.fallback <==> data.components.Some? && RenderComponents(data.components.value, supply).Err?)
      && (!page.fallback ==>
            page.crumbs[2].title == Some(if Truthy(data.title) then data.title.value else "Modul " + ModuleNumber(pathname).value))
  {
    var data := fetch(ModuleDataPath(ModuleNumber(pathname).value));
    if data.components.Some? && RenderComponents(data.components.value, supply).Err? {
      assert OpenModulePage(pathname, fetch, supply) == FallbackModulePage(pathname);
    } else {
      assert !OpenModulePage(pathname, fetch, supply).fallback;
    }
  }

  /** A path without a module number always shows the fallback. */
  lemma NoNumberFallsBack(pathname: string, fetch: string -> ModuleFetch, supply: nat -> Fresh)
    requires ModuleNumber(pathname).None?
    ensures OpenModulePage(pathname, fetch, supply).fallback
  {
  }
}
