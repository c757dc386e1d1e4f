/** The three `get_slugname` class methods and `add_urls`, which turns the view classes of a list
    of modules into URL patterns. */
module Routes {
  import opened Text

  /** Which `get_slugname` a class inherits: the one that strips `view` (`CottonTableView`,
      `DictTableView`) or the one that strips `detailview` (`GenericDetailView`). */
  datatype SlugRule = ViewSuffix | DetailViewSuffix

  /** A class bound in a module: its `__name__`, which of the three bases it derives from (each
      base counts as deriving from itself), and the `get_slugname` it resolves to. */
  datatype ClassInfo = ClassInfo(name: string, isCotton: bool, isDict: bool, isDetail: bool, slugRule: SlugRule)

  /** One pair of `inspect.getmembers(module, inspect.isclass)`: the name the module binds and
      the class bound to it. A module is the list of these pairs in the order `getmembers` gives. */
  datatype Member = Member(binding: string, cls: ClassInfo)

  datatype RouteKind = ListRoute | DetailRoute

  /** `path(pattern, view, name=name)`; `view` names the class whose `as_view()` serves it. */
  datatype Route = Route(pattern: string, name: string, kind: RouteKind, view: string)

  /** `CottonTableView.get_slugname` and `DictTableView.get_slugname`: the lower-cased class name
      with one trailing `view` removed when there is one. */
  function ListSlug(className: string): (r: string)
    ensures EndsWith(Lower(className), "view") ==> r + "view" == Lower(className)
    ensures !EndsWith(Lower(className), "view") ==> r == Lower(className)
    ensures forall i :: 0 <= i < |r| ==> !IsUpper(r[i])
  {
    RemoveSuffix(Lower(className), "view")
  }

  /** `GenericDetailView.get_slugname`: the lower-cased class name with one trailing `detailview`
      removed when there is one. */
  function DetailSlug(className: string): (r: string)
    ensures EndsWith(Lower(className), "detailview") ==> r + "detailview" == Lower(className)
    ensures !EndsWith(Lower(className), "detailview") ==> r == Lower(className)
    ensures forall i :: 0 <= i < |r| ==> !IsUpper(r[i])
  {
    RemoveSuffix(Lower(className), "detailview")
  }

  /** The suffix the `get_slugname` a class resolves to removes. */
  function SlugSuffix(rule: SlugRule): string {
    match rule
    case ViewSuffix => "view"
    case DetailViewSuffix => "detailview"
  }

  /** `cls.get_slugname()` as the class resolves it. */
  function Slug(c: ClassInfo): (r: string)
    ensures EndsWith(Lower(c.name), SlugSuffix(c.slugRule)) ==> r + SlugSuffix(c.slugRule) == Lower(c.name)
    ensures !EndsWith(Lower(c.name), SlugSuffix(c.slugRule)) ==> r == Lower(c.name)
  {
    match c.slugRule
    case ViewSuffix => ListSlug(c.name)
    case DetailViewSuffix => DetailSlug(c.name)
  }

  /** A class named `<stem>View` (any capitalisation of `view`) gets the slug `<stem>` lower-cased. */
  lemma ViewClassSlug(stem: string, suffix: string)
    requires Lower(suffix) == "view"
    ensures ListSlug(stem + suffix) == Lower(stem)
  {
    LowerAppend(stem, suffix);
    var lowered := Lower(stem + suffix);
    assert lowered[|lowered| - 4..] == "view";
    var r := ListSlug(stem + suffix);
    assert r == (r + "view")[..|r|];
  }

  /** `Overview` ends in `view` once lower-cased, so its slug is `over`. */
  lemma OverviewSlug()
    ensures ListSlug("Overview") == "over"
  {
    assert "Overview" == "Over" + "view";
    assert Lower("view") == "view";
    assert Lower("Over") == "over";
    ViewClassSlug("Over", "view");
  }

  /** A class named `<stem>DetailView` (any capitalisation of `detailview`) gets the slug
      `<stem>` lower-cased from the detail rule. */
  lemma DetailViewClassSlug(stem: string, suffix: string)
    requires Lower(suffix) == "detailview"
    ensures DetailSlug(stem + suffix) == Lower(stem)
  {
    LowerAppend(stem, suffix);
    var lowered := Lower(stem + suffix);
    assert lowered[|lowered| - 10..] == "detailview";
    var r := DetailSlug(stem + suffix);
    assert r == (r + "detailview")[..|r|];
  }

  /** The list rule applied to the same class would keep `detail` in the slug. */
  lemma DetailViewClassListSlug(stem: string, detail: string, view: string)
    requires Lower(detail) == "detail" && Lower(view) == "view"
    ensures ListSlug(stem + detail + view) == Lower(stem) + "detail"
  {
    ViewClassSlug(stem + detail, view);
    LowerAppend(stem, detail);
  }

  /** The route name `url_action_method` refers to for a list view with this slug. */
  function ListRouteName(slug: string): string { "list-view-" + slug }

  /** Lines 486-490: the member gets a list route. The exclusion compares the bound name only. */
  predicate HasListRoute(m: Member) {
    m.binding != "CottonTableView" && (m.cls.isCotton || m.cls.isDict)
  }

  /** `path(f"{slug}/", view.as_view(), name=f"list-view-{slug}")`. */
  function ListRouteFor(slug: string, view: string): Route {
    Route(slug + "/", ListRouteName(slug), ListRoute, view)
  }

  /** `path(f"{slug}/<int:pk>/", view.as_view(), name=f"detail-view-{slug}")`. */
  function DetailRouteFor(slug: string, view: string): Route {
    Route(slug + "/<int:pk>/", "detail-view-" + slug, DetailRoute, view)
  }

  /** The routes one member contributes, list route first. */
  function MemberRoutes(m: Member): seq<Route> {
    var slug := Slug(m.cls);
    (if HasListRoute(m) then [ListRouteFor(slug, m.cls.name)] else []) +
    (if m.cls.isDetail then [DetailRouteFor(slug, m.cls.name)] else [])
  }

  function ModuleRoutes(members: seq<Member>): seq<Route> {
    if members == [] then []
    else ModuleRoutes(members[..|members| - 1]) + MemberRoutes(members[|members| - 1])
  }

  /** The list `add_urls` returns, module by module and member by member. */
  function AllRoutes(modules: seq<seq<Member>>): seq<Route> {
    if modules == [] then []
    else AllRoutes(modules[..|modules| - 1]) + ModuleRoutes(modules[|modules| - 1])
  }

  lemma ModuleRoutesSnoc(members: seq<Member>, j: nat)
    requires j < |members|
    ensures ModuleRoutes(members[..j + 1]) == ModuleRoutes(members[..j]) + MemberRoutes(members[j])
  {
    assert members[..j + 1][..j] == members[..j];
  }

  lemma AllRoutesSnoc(modules: seq<seq<Member>>, i: nat)
    requires i < |modules|
    ensures AllRoutes(modules[..i + 1]) == AllRoutes(modules[..i]) + ModuleRoutes(modules[i])
  {
    assert modules[..i + 1][..i] == modules[..i];
  }

  /** The body of the inner loop of `add_urls`: one member's routes, list route first. */
  method AppendMemberUrls(urlpatterns: seq<Route>, m: Member) returns (r: seq<Route>)
    ensures r == urlpatterns + MemberRoutes(m)
  {
    r := urlpatterns;
    if HasListRoute(m) {
      var trimedViewName := Slug(m.cls);
      r := r + [ListRouteFor(trimedViewName, m.cls.name)];
    }
    if m.cls.isDetail {
      var trimedViewName := Slug(m.cls);
      r := r + [DetailRouteFor(trimedViewName, m.cls.name)];
    }
  }

  /** The inner loop of `add_urls`: the routes of one module's classes appended in order. */
  method AppendModuleUrls(urlpatterns: seq<Route>, members: seq<Member>) returns (r: seq<Route>)
    ensures r == urlpatterns + ModuleRoutes(members)
  {
    r := urlpatterns;
    var j := 0;
    while j < |members|
      invariant 0 <= j <= |members|
      invariant r == urlpatterns + ModuleRoutes(members[..j])
    {
      ModuleRoutesSnoc(members, j);
      r := AppendMemberUrls(r, members[j]);
      j := j + 1;
    }
    assert members[..j] == members;
  }

  /** `add_urls`: every class of every module, in order. */
  method AddUrls(modules: seq<seq<Member>>) returns (urlpatterns: seq<Route>)
    ensures urlpatterns == AllRoutes(modules)
  {
    urlpatterns := [];
    var i := 0;
    while i < |modules|
      invariant 0 <= i <= |modules|
      invariant urlpatterns == AllRoutes(modules[..i])
    {
      AllRoutesSnoc(modules, i);
      urlpatterns := AppendModuleUrls(urlpatterns, modules[i]);
      i := i + 1;
    }
    assert modules[..i] == modules;
  }

  /** Routes of consecutive modules follow each other, with nothing merged or dropped. */
  lemma {:induction false} AllRoutesAppend(first: seq<seq<Member>>, later: seq<seq<Member>>)
    ensures AllRoutes(first + later) == AllRoutes(first) + AllRoutes(later)
    decreases |later|
  {
    if later == [] {
      assert first + later == first;
    } else {
      assert (first + later)[..|first + later| - 1] == first + later[..|later| - 1];
      AllRoutesAppend(first, later[..|later| - 1]);
    }
  }

  lemma {:induction false} ModuleRoutesAppend(first: seq<Member>, later: seq<Member>)
    ensures ModuleRoutes(first + later) == ModuleRoutes(first) + ModuleRoutes(later)
    decreases |later|
  {
    if later == [] {
      assert first + later == first;
    } else {
      assert (first + later)[..|first + later| - 1] == first + later[..|later| - 1];
      ModuleRoutesAppend(first, later[..|later| - 1]);
    }
  }

  /** Every route a member of a module contributes is emitted by `add_urls`. */
  lemma MemberRoutesEmitted(modules: seq<seq<Member>>, i: nat, j: nat, route: Route)
    requires i < |modules| && j < |modules[i]|
    requires route in MemberRoutes(modules[i][j])
    ensures route in AllRoutes(modules)
  {
    var members := modules[i];
    assert members == members[..j] + [members[j]] + members[j + 1..];
    ModuleRoutesAppend(members[..j] + [members[j]], members[j + 1..]);
    ModuleRoutesAppend(members[..j], [members[j]]);
    assert ModuleRoutes([members[j]]) == MemberRoutes(members[j]) by {
      assert [members[j]][..0] == [];
    }
    assert modules == modules[..i] + [members] + modules[i + 1..];
    AllRoutesAppend(modules[..i] + [members], modules[i + 1..]);
    AllRoutesAppend(modules[..i], [members]);
    assert AllRoutes([members]) == ModuleRoutes(members) by {
      assert [members][..0] == [];
    }
  }

  /** Counting: every list view and every detail view yields one route each, even when two of
      them share a slug. */
  function ListViews(members: seq<Member>): nat {
    if members == [] then 0
    else ListViews(members[..|members| - 1]) + (if HasListRoute(members[|members| - 1]) then 1 else 0)
  }

  function DetailViews(members: seq<Member>): nat {
    if members == [] then 0
    else DetailViews(members[..|members| - 1]) + (if members[|members| - 1].cls.isDetail then 1 else 0)
  }

  lemma {:induction false} ModuleRoutesCount(members: seq<Member>)
    ensures |ModuleRoutes(members)| == ListViews(members) + DetailViews(members)
  {
    if members != [] {
      ModuleRoutesCount(members[..|members| - 1]);
    }
  }

  /** The name a `CottonTableView` puts in its table's `url_action_method`
      (`f"list-view-{self.get_slugname()}"`) is the name of a route `add_urls` emits for it. */
  lemma ActionUrlIsListRoute(modules: seq<seq<Member>>, i: nat, j: nat)
    requires i < |modules| && j < |modules[i]|
    requires HasListRoute(modules[i][j]) && modules[i][j].cls.slugRule == ViewSuffix
    ensures var c := modules[i][j].cls;
      ListRouteFor(ListSlug(c.name), c.name) in AllRoutes(modules)
  {
    var c := modules[i][j].cls;
    var route := ListRouteFor(ListSlug(c.name), c.name);
    assert MemberRoutes(modules[i][j])[0] == route;
    MemberRoutesEmitted(modules, i, j, route);
  }
}
