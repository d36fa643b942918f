/**
 * The permission-filtered tab shell of `App.tsx`: which tabs a user sees, the base path the
 * plugin is mounted under (inferred from the current URL), the active tab, the target of a tab
 * change, and what is rendered while the permissions load and after. React, the router and
 * `navigate` are not modelled; only the values they are given.
 */
module App {
  import opened Wrappers
  import opened Strings
  import opened Seqs

  /** A header tab of the catalog; `title` holds the tab's `label` in `App.tsx`, a reserved word in Dafny. */
  datatype Tab = Tab(id: string, title: string, path: string, permissionKey: string)

  /** The Settings tab: it is keyed by `*`. */
  const SettingsTab: Tab := Tab("settings", "Settings", "/admin", "*")

  /** The fixed, ordered tab catalog `allTabs`. */
  const AllTabs: seq<Tab> := [
    Tab("resources", "Resources", "/resources", "resource"),
    Tab("templates", "Templates", "/templates", "template"),
    Tab("integrations", "Integrations", "/integrations", "integration"),
    Tab("storage", "Storage", "/storages", "storage"),
    Tab("source-codes", "Source Codes", "/source_codes", "source_code"),
    Tab("source-code-versions", "Source Code Versions", "/source_code_versions", "source_code_version"),
    Tab("workspaces", "Workspaces", "/workspaces", "workspace"),
    Tab("tasks", "Tasks", "/tasks", "task"),
    Tab("executors", "Executors", "/executors", "executor"),
    Tab("secrets", "Secrets", "/secrets", "secret"),
    Tab("batch-operations", "Batch Operations", "/batch_operations", "batch_operation"),
    Tab("auth-providers", "Auth Providers", "/auth_providers", "auth_provider"),
    SettingsTab
  ]

  /** The resolved permission map: permission key to access level. */
  type Permissions = map<string, string>

  /** `!!permissions[key]`: present and not the empty string. */
  predicate Granted(permissions: Permissions, key: string) {
    key in permissions && permissions[key] != ""
  }

  /** `permissions['*'] === 'admin'` */
  predicate IsAdmin(permissions: Permissions) {
    "*" in permissions && permissions["*"] == "admin"
  }

  predicate TabVisible(permissions: Permissions, tab: Tab) {
    IsAdmin(permissions) || Granted(permissions, "api:" + tab.permissionKey)
  }

  /** `tabs`: the catalog filtered by the user's permissions. */
  function VisibleTabs(permissions: Permissions): seq<Tab> {
    Filter(AllTabs, t => TabVisible(permissions, t))
  }

  // ------------------------------------------------------------------ the tab filter

  /** An admin sees every tab of the catalog, whatever the other keys hold. */
  lemma AdminSeesEveryTab(permissions: Permissions)
    requires IsAdmin(permissions)
    ensures VisibleTabs(permissions) == AllTabs
  {
    FilterAll(AllTabs, t => TabVisible(permissions, t));
  }

  /** Without admin, a tab is visible exactly when its `api:` key is granted. */
  lemma VisibleWithoutAdmin(permissions: Permissions, tab: Tab)
    requires !IsAdmin(permissions)
    ensures tab in VisibleTabs(permissions) <==>
              tab in AllTabs && Granted(permissions, "api:" + tab.permissionKey)
  {
    var p := t => TabVisible(permissions, t);
    var r := VisibleTabs(permissions);
    if tab in r {
      var i :| 0 <= i < |r| && r[i] == tab;
    }
    if tab in AllTabs && Granted(permissions, "api:" + tab.permissionKey) {
      var i :| 0 <= i < |AllTabs| && AllTabs[i] == tab;
      assert p(AllTabs[i]);
    }
  }

  /** The visible tabs keep the catalog's order. */
  lemma VisibleTabsKeepCatalogOrder(permissions: Permissions)
    ensures IsSubsequence(VisibleTabs(permissions), AllTabs)
  {
    FilterIsSubsequence(AllTabs, t => TabVisible(permissions, t));
  }

  /** Without admin, Settings is visible exactly when `api:*` is granted. */
  lemma SettingsNeedsApiStar(permissions: Permissions)
    requires !IsAdmin(permissions)
    ensures SettingsTab in VisibleTabs(permissions) <==> Granted(permissions, "api:*")
  {
    assert AllTabs[12] == SettingsTab;
    assert "api:" + SettingsTab.permissionKey == "api:*";
    VisibleWithoutAdmin(permissions, SettingsTab);
  }

  /** The admin key is `*`: a user whose `api:*` is `admin` sees only the Settings tab. */
  lemma ApiStarIsNotAdmin()
    ensures VisibleTabs(map["api:*" := "admin"]) == [SettingsTab]
  {
    var perms := map["api:*" := "admin"];
    var p := t => TabVisible(perms, t);
    assert !IsAdmin(perms);
    forall i | 0 <= i < 12 ensures !p(AllTabs[i]) {
      var key := "api:" + AllTabs[i].permissionKey;
      assert key != "api:*" by {
        assert |AllTabs[i].permissionKey| >= 4;
        assert |key| > |"api:*"|;
      }
    }
    assert "api:" + AllTabs[12].permissionKey == "api:*";
    FilterNoneButLast(AllTabs, p);
  }

  /** An empty permission map shows no tab. */
  lemma NoPermissionsNoTabs()
    ensures VisibleTabs(map[]) == []
  {
    FilterNone(AllTabs, t => TabVisible(map[], t));
  }

  /** Only the last element passes: filtering keeps just that one. */
  lemma {:induction false} FilterNoneButLast<T>(s: seq<T>, p: T -> bool)
    requires |s| > 0 && p(s[|s| - 1])
    requires forall i :: 0 <= i < |s| - 1 ==> !p(s[i])
    ensures Filter(s, p) == [s[|s| - 1]]
  {
    if |s| > 1 {
      FilterNoneButLast(s[1..], p);
    }
  }

  // ------------------------------------------------------------------ the catalog's paths

  /** One path segment: `/` and a non-empty name holding no further `/`. */
  predicate Segment(path: string) {
    |path| >= 2 && path[0] == '/' && forall j :: 1 <= j < |path| ==> path[j] != '/'
  }

  /** Every path is well shaped and none is a prefix of another. */
  predicate PrefixFreePaths(tabs: seq<Tab>) {
    (forall i :: 0 <= i < |tabs| ==> Segment(tabs[i].path))
    && (forall i, j :: 0 <= i < |tabs| && 0 <= j < |tabs| && i != j ==>
          !StartsWith(tabs[i].path, tabs[j].path))
  }

  lemma ApartAt(p: string, q: string, k: nat)
    requires k < |p| && k < |q| && p[k] != q[k]
    ensures !StartsWith(p, q) && !StartsWith(q, p)
  {
    if |q| <= |p| { assert p[..|q|][k] == p[k] != q[k]; }
    if |p| <= |q| { assert q[..|p|][k] == q[k] != p[k]; }
  }

  /**
   * Two catalog paths differ at their second or third character; the two source-code paths at the thirteenth.
   * The proof is split over ranges of indices: each part unfolds only a few of the literal
   * catalog entries, which keeps every proof within the solver's resource budget.
   */
  lemma CatalogPathsApart(i: nat, j: nat)
    requires i < j < |AllTabs|
    ensures !StartsWith(AllTabs[i].path, AllTabs[j].path) && !StartsWith(AllTabs[j].path, AllTabs[i].path)
  {
    if i < 4 {
      CatalogPathsApartLow(i, j);
    } else if i < 8 {
      CatalogPathsApartMid(i, j);
    } else {
      CatalogPathsApartHigh(i, j);
    }
  }

  lemma CatalogPathsApartLow(i: nat, j: nat)
    requires i < 4 && i < j < |AllTabs|
    ensures !StartsWith(AllTabs[i].path, AllTabs[j].path) && !StartsWith(AllTabs[j].path, AllTabs[i].path)
  {
    var p, q := AllTabs[i].path, AllTabs[j].path;
    var k := if p[1] != q[1] then 1 else if p[2] != q[2] then 2 else 12;
    ApartAt(p, q, k);
  }

  lemma CatalogPathsApartMid(i: nat, j: nat)
    requires 4 <= i < 8 && i < j < |AllTabs|
    ensures !StartsWith(AllTabs[i].path, AllTabs[j].path) && !StartsWith(AllTabs[j].path, AllTabs[i].path)
  {
    var p, q := AllTabs[i].path, AllTabs[j].path;
    var k := if p[1] != q[1] then 1 else if p[2] != q[2] then 2 else 12;
    ApartAt(p, q, k);
  }

  lemma CatalogPathsApartHigh(i: nat, j: nat)
    requires 8 <= i && i < j < |AllTabs|
    ensures !StartsWith(AllTabs[i].path, AllTabs[j].path) && !StartsWith(AllTabs[j].path, AllTabs[i].path)
  {
    var p, q := AllTabs[i].path, AllTabs[j].path;
    var k := if p[1] != q[1] then 1 else 2;
    ApartAt(p, q, k);
  }

  /**
   * Each catalog path is a single segment.
   * The proof is split over ranges of indices: each part unfolds only a few of the literal
   * catalog entries, which keeps every proof within the solver's resource budget.
   */
  lemma CatalogSegment(i: nat)
    requires i < |AllTabs|
    ensures Segment(AllTabs[i].path)
  {
    if i < 4 {
      CatalogSegmentLow(i);
    } else if i < 8 {
      CatalogSegmentMid(i);
    } else {
      CatalogSegmentHigh(i);
    }
  }

  lemma CatalogSegmentLow(i: nat)
    requires i < 4
    ensures Segment(AllTabs[i].path)
  {
  }

  lemma CatalogSegmentMid(i: nat)
    requires 4 <= i < 8
    ensures Segment(AllTabs[i].path)
  {
  }

  lemma CatalogSegmentHigh(i: nat)
    requires 8 <= i < |AllTabs|
    ensures Segment(AllTabs[i].path)
  {
  }

  /**
   * The catalog's paths are well shaped and no path is a prefix of another, so its tabs are
   * distinct too.
   */
  lemma CatalogIsPrefixFree()
    ensures PrefixFreePaths(AllTabs)
    ensures Distinct(AllTabs)
  {
    forall i | 0 <= i < |AllTabs| ensures Segment(AllTabs[i].path) {
      CatalogSegment(i);
    }
    forall i, j | 0 <= i < |AllTabs| && 0 <= j < |AllTabs| && i != j
      ensures !StartsWith(AllTabs[i].path, AllTabs[j].path)
    {
      if i < j { CatalogPathsApart(i, j); } else { CatalogPathsApart(j, i); }
    }
    forall i, j | 0 <= i < j < |AllTabs| ensures AllTabs[i] != AllTabs[j] {
      CatalogPathsApart(i, j);
      assert StartsWith(AllTabs[i].path, AllTabs[i].path);
    }
  }

  // ------------------------------------------------------------------ base path

  /** `tabs.map(t => t.path)` */
  function Paths(tabs: seq<Tab>): (r: seq<string>)
    ensures |r| == |tabs| && forall i :: 0 <= i < |tabs| ==> r[i] == tabs[i].path
  {
    seq(|tabs|, i requires 0 <= i < |tabs| => tabs[i].path)
  }

  /**
   * A route marks the base path when its first occurrence in the path is after index 0 and is
   * followed by the end of the path or by `/`.
   */
  predicate EndsBase(path: string, route: string) {
    var i := IndexOf(path, route);
    i > 0 && (var after := path[i + |route|..]; after == "" || StartsWith(after, "/"))
  }

  /** `s.replace(/\/$/, '') || '/'`: one trailing `/` dropped, or `/` when that leaves nothing. */
  function TrimmedOrRoot(path: string): (r: string)
    ensures r != ""
  {
    var s := DropTrailingSlash(path);
    if s == "" then "/" else s
  }

  /** `basePath`: the text before the first known route that ends the base, one trailing `/` dropped. */
  function BasePath(path: string, routes: seq<string>): (r: string)
    ensures r == "/" || StartsWith(path, r)
    ensures forall k :: (0 <= k < |routes| && EndsBase(path, routes[k])
                         && (forall j :: 0 <= j < k ==> !EndsBase(path, routes[j]))) ==>
              r == DropTrailingSlash(path[..IndexOf(path, routes[k])])
    ensures (forall k :: 0 <= k < |routes| ==> !EndsBase(path, routes[k])) ==> r == TrimmedOrRoot(path)
  {
    var k := FindIndex(routes, route => EndsBase(path, route));
    if k >= 0 then
      var b := path[..IndexOf(path, routes[k])];
      var r := DropTrailingSlash(b);
      assert b[..|r|] == r;
      r
    else
      var s := DropTrailingSlash(path);
      assert s == "" || path[..|s|] == s;
      TrimmedOrRoot(path)
  }

  /**
   * Before the end of a one-segment base, a segment route that is neither a prefix of the base
   * nor has the base as its prefix occurs nowhere, whatever follows the base.
   */
  lemma NotWithinBase(base: string, route: string, rest: string, j: nat)
    requires Segment(base) && Segment(route)
    requires !StartsWith(base, route) && !StartsWith(route, base)
    requires j < |base|
    ensures !OccursAt(base + rest, route, j)
  {
    var path := base + rest;
    if j == 0 {
      if |route| <= |base| {
        assert path[..|route|] == base[..|route|];
      } else if |route| <= |path| {
        assert path[..|route|][..|base|] == base;
      }
    } else {
      MismatchNotAt(path, route, j, 0);
    }
  }

  /**
   * Below a one-segment base, a segment route apart from the base is found right after the
   * base, and ends it when the rest is empty or starts with `/`.
   */
  lemma RouteEndsBase(base: string, route: string, tail: string)
    requires Segment(base) && Segment(route)
    requires !StartsWith(base, route) && !StartsWith(route, base)
    requires tail == "" || tail[0] == '/'
    ensures IndexOf(base + route + tail, route) == |base|
    ensures EndsBase(base + route + tail, route)
  {
    var path := base + route + tail;
    assert path == base + (route + tail);
    forall j | 0 <= j < |base| ensures !OccursAt(path, route, j) {
      NotWithinBase(base, route, route + tail, j);
    }
    assert path[|base|..|base| + |route|] == route;
    IndexOfIs(path, route, |base|);
    assert path[|base| + |route|..] == tail;
  }

  /**
   * Below a one-segment base, the first known route ends the base: the base is recovered, so
   * an admin on `/infrakitchen/resources/123` gets `/infrakitchen`.
   */
  lemma BaseBeforeFirstRoute(base: string, routes: seq<string>, tail: string)
    requires Segment(base) && |routes| > 0 && Segment(routes[0])
    requires !StartsWith(base, routes[0]) && !StartsWith(routes[0], base)
    requires tail == "" || tail[0] == '/'
    ensures BasePath(base + routes[0] + tail, routes) == base
  {
    RouteEndsBase(base, routes[0], tail);
    assert (base + routes[0] + tail)[..|base|] == base;
  }

  lemma BasePathExample()
    ensures BasePath("/infrakitchen" + "/resources" + "/123", Paths(VisibleTabs(map["*" := "admin"]))) == "/infrakitchen"
  {
    AdminSeesEveryTab(map["*" := "admin"]);
    ApartAt("/infrakitchen", "/resources", 1);
    BaseBeforeFirstRoute("/infrakitchen", Paths(AllTabs), "/123");
  }

  /** A user whose first visible tab is Integrations, on `/infrakitchen/integrations/7`, gets `/infrakitchen`. */
  lemma IntegrationsBasePathExample()
    ensures BasePath("/infrakitchen" + "/integrations" + "/7", ["/integrations"]) == "/infrakitchen"
  {
    ApartAt("/infrakitchen", "/integrations", 3);
    BaseBeforeFirstRoute("/infrakitchen", ["/integrations"], "/7");
  }

  /**
   * A known route that occurs before the real mount point ends the base: under a two-segment
   * prefix whose segments are both apart from the first route, the whole prefix is the base.
   */
  lemma EarlierRouteEndsBase(a: string, b: string, routes: seq<string>)
    requires Segment(a) && Segment(b) && |routes| > 0 && Segment(routes[0])
    requires !StartsWith(a, routes[0]) && !StartsWith(routes[0], a)
    requires !StartsWith(b, routes[0]) && !StartsWith(routes[0], b)
    ensures BasePath(a + b + routes[0], routes) == a + b
  {
    var route := routes[0];
    var path := a + b + route;
    assert path == a + (b + route);
    forall j | 0 <= j < |a + b| ensures !OccursAt(path, route, j) {
      if j < |a| {
        NotWithinBase(a, route, b + route, j);
      } else {
        NotWithinBase(b, route, route, j - |a|);
        if j + |route| <= |path| {
          assert path[j..j + |route|] == (b + route)[j - |a|..j - |a| + |route|];
        }
      }
    }
    assert path[|a + b|..] == route;
    IndexOfIs(path, route, |a + b|);
    assert path[|a + b| + |route|..] == "";
    assert path[..|a + b|] == a + b;
  }

  /** `/infrakitchen/templates/resources` gets the base `/infrakitchen/templates`, not `/infrakitchen`. */
  lemma EarlierRouteEndsBaseExample()
    ensures BasePath("/infrakitchen" + "/templates" + "/resources", ["/resources", "/templates"])
            == "/infrakitchen" + "/templates"
  {
    ApartAt("/infrakitchen", "/resources", 1);
    ApartAt("/templates", "/resources", 1);
    EarlierRouteEndsBase("/infrakitchen", "/templates", ["/resources", "/templates"]);
  }

  // ------------------------------------------------------------------ active tab

  /** The current path relative to the base: the base's first occurrence removed, one trailing `/` dropped, `/` if empty. */
  function RelativePath(pathname: string, basePath: string): (r: string)
    ensures r != ""
    ensures StartsWith(pathname, basePath) ==> r == TrimmedOrRoot(pathname[|basePath|..])
    ensures IndexOf(pathname, basePath) < 0 ==> r == TrimmedOrRoot(pathname)
  {
    var rest := RemoveFirst(pathname, basePath);
    if StartsWith(pathname, basePath) then
      IndexOfPrefix(pathname, basePath);
      assert rest[..0] == [] && rest[0..] == rest;
      assert pathname == basePath + rest;
      assert pathname[|basePath|..] == rest;
      TrimmedOrRoot(rest)
    else
      TrimmedOrRoot(rest)
  }

  /** A `/` tab matches only the root; any other tab matches the paths it prefixes. */
  predicate TabMatches(relativePath: string, tab: Tab) {
    if tab.path == "/" then relativePath == "/" else StartsWith(relativePath, tab.path)
  }

  /** `selectedTabIndex`: the first matching tab, or 0; always 0 or an index into `tabs`. */
  function SelectedTabIndex(pathname: string, basePath: string, tabs: seq<Tab>): (r: nat)
    ensures r == 0 || r < |tabs|
    ensures var rel := RelativePath(pathname, basePath);
            forall k :: (0 <= k < |tabs| && TabMatches(rel, tabs[k])
                         && (forall j :: 0 <= j < k ==> !TabMatches(rel, tabs[j]))) ==> r == k
    ensures var rel := RelativePath(pathname, basePath);
            (forall k :: 0 <= k < |tabs| ==> !TabMatches(rel, tabs[k])) ==> r == 0
  {
    var rel := RelativePath(pathname, basePath);
    var i := FindIndex(tabs, tab => TabMatches(rel, tab));
    if i >= 0 then i else 0
  }

  /** Visible tabs keep the catalog's path shape and its prefix-freedom. */
  lemma VisibleTabsPrefixFree(permissions: Permissions)
    ensures PrefixFreePaths(VisibleTabs(permissions))
  {
    var tabs := VisibleTabs(permissions);
    CatalogIsPrefixFree();
    FilterDistinct(AllTabs, t => TabVisible(permissions, t));
    forall i | 0 <= i < |tabs| ensures Segment(tabs[i].path) {
      assert tabs[i] in AllTabs;
    }
    forall i, j | 0 <= i < |tabs| && 0 <= j < |tabs| && i != j
      ensures !StartsWith(tabs[i].path, tabs[j].path)
    {
      assert tabs[i] != tabs[j];
      assert tabs[i] in AllTabs && tabs[j] in AllTabs;
    }
  }

  /** A path neither of whose pair is a prefix of the other is no prefix of anything the other starts. */
  lemma ApartExtended(p: string, q: string, tail: string)
    requires !StartsWith(p, q) && !StartsWith(q, p)
    ensures !StartsWith(p + tail, q)
  {
    if |q| <= |p| {
      assert (p + tail)[..|q|] == p[..|q|];
    } else if |q| <= |p| + |tail| {
      assert (p + tail)[..|q|][..|p|] == p;
    }
  }

  /** Among prefix-free tabs, any path under a tab's path, below the base, makes that tab the active one. */
  lemma SelectsTabBelow(tabs: seq<Tab>, basePath: string, index: nat, tail: string)
    requires PrefixFreePaths(tabs) && index < |tabs|
    ensures SelectedTabIndex(basePath + tabs[index].path + tail, basePath, tabs) == index
  {
    var tab := tabs[index];
    assert basePath + tab.path + tail == basePath + (tab.path + tail);
    RemoveFirstOfPrefix(basePath, tab.path + tail);
    DropTrailingSlashOfConcat(tab.path, tail);
    var rel := tab.path + DropTrailingSlash(tail);
    assert RelativePath(basePath + tab.path + tail, basePath) == rel;
    assert rel[..|tab.path|] == tab.path;
    assert TabMatches(rel, tab);
    forall j | 0 <= j < index ensures !TabMatches(rel, tabs[j]) {
      ApartExtended(tab.path, tabs[j].path, DropTrailingSlash(tail));
    }
  }

  /** An admin on `/infrakitchen` + `/resources/123` sees the Resources tab selected. */
  lemma ActiveTabExample()
    ensures var tabs := VisibleTabs(map["*" := "admin"]);
            tabs[SelectedTabIndex("/infrakitchen" + "/resources" + "/123", "/infrakitchen", tabs)].title == "Resources"
  {
    AdminSeesEveryTab(map["*" := "admin"]);
    CatalogIsPrefixFree();
    SelectsTabBelow(AllTabs, "/infrakitchen", 0, "/123");
  }

  // ------------------------------------------------------------------ tab change

  /** The path `handleTabChange` navigates to, or `None` when there is no tab at `index`. */
  function TabChangeTarget(tabs: seq<Tab>, basePath: string, index: int): (r: Option<string>)
    ensures r.None? <==> !(0 <= index < |tabs|)
    ensures r.Some? && tabs[index].path == "/" ==> r.value == basePath
    ensures r.Some? && tabs[index].path != "/" ==>
              StartsWith(r.value, basePath) && r.value[|basePath|..] == tabs[index].path
  {
    if 0 <= index < |tabs| then
      var tab := tabs[index];
      if tab.path == "/" then Some(basePath)
      else
        ConcatParts(basePath, tab.path);
        Some(basePath + tab.path)
    else None
  }

  /**
   * Choosing a visible tab and navigating to its target makes that tab the active one again,
   * as long as the base path stays the same.
   */
  lemma TabChangeSelectsTab(permissions: Permissions, basePath: string, index: int)
    requires 0 <= index < |VisibleTabs(permissions)|
    ensures var tabs := VisibleTabs(permissions);
            var target := TabChangeTarget(tabs, basePath, index);
            target.Some? && SelectedTabIndex(target.value, basePath, tabs) == index
  {
    var tabs := VisibleTabs(permissions);
    VisibleTabsPrefixFree(permissions);
    SelectsTabBelow(tabs, basePath, index, "");
    assert basePath + tabs[index].path + "" == basePath + tabs[index].path;
  }

  /**
   * Below a one-segment base apart from every tab path, the target of a tab change holds no
   * earlier tab's path: each route before `index` occurs nowhere in it.
   */
  lemma EarlierRouteAbsent(tabs: seq<Tab>, base: string, index: nat, k: nat)
    requires PrefixFreePaths(tabs) && Segment(base)
    requires index < |tabs| && k < |tabs| && k != index
    requires !StartsWith(base, tabs[k].path) && !StartsWith(tabs[k].path, base)
    ensures IndexOf(base + tabs[index].path, tabs[k].path) < 0
  {
    var tp, route := tabs[index].path, tabs[k].path;
    var path := base + tp;
    forall j | 0 <= j <= |path| ensures !OccursAt(path, route, j) {
      if j < |base| {
        NotWithinBase(base, route, tp, j);
      } else if j == |base| {
        if j + |route| <= |path| {
          assert path[j..j + |route|] == tp[..|route|];
        }
      } else if j < |path| {
        assert path[j] == tp[j - |base|];
        MismatchNotAt(path, route, j, 0);
      }
    }
  }

  /** Navigating to a tab's target below such a base infers that base again. */
  lemma BaseOfTabTarget(tabs: seq<Tab>, base: string, index: nat)
    requires PrefixFreePaths(tabs) && Segment(base) && index < |tabs|
    requires forall k :: 0 <= k < |tabs| ==> !StartsWith(base, tabs[k].path) && !StartsWith(tabs[k].path, base)
    ensures BasePath(base + tabs[index].path, Paths(tabs)) == base
  {
    var path := base + tabs[index].path;
    var routes := Paths(tabs);
    forall k | 0 <= k < index ensures !EndsBase(path, routes[k]) {
      EarlierRouteAbsent(tabs, base, index, k);
    }
    RouteEndsBase(base, tabs[index].path, "");
    assert path + "" == path;
    assert path[..|base|] == base;
  }

  /**
   * The round trip of a tab change: below a one-segment base apart from every visible tab's
   * path, navigating to a visible tab's target infers the same base and selects that tab.
   */
  lemma TabChangeRoundTrip(permissions: Permissions, base: string, index: int)
    requires Segment(base) && 0 <= index < |VisibleTabs(permissions)|
    requires forall k :: 0 <= k < |VisibleTabs(permissions)| ==>
               !StartsWith(base, VisibleTabs(permissions)[k].path) && !StartsWith(VisibleTabs(permissions)[k].path, base)
    ensures var tabs := VisibleTabs(permissions);
            var target := TabChangeTarget(tabs, base, index);
            target.Some? && BasePath(target.value, Paths(tabs)) == base
            && SelectedTabIndex(target.value, BasePath(target.value, Paths(tabs)), tabs) == index
  {
    var tabs := VisibleTabs(permissions);
    VisibleTabsPrefixFree(permissions);
    assert tabs[index].path != "/";
    BaseOfTabTarget(tabs, base, index);
    TabChangeSelectsTab(permissions, base, index);
  }

  /**
   * The plugin's mount point `/infrakitchen` is apart from every catalog path.
   * The proof is split over ranges of indices: each part unfolds only a few of the literal
   * catalog entries, which keeps every proof within the solver's resource budget.
   */
  lemma MountApart(i: nat)
    requires i < |AllTabs|
    ensures !StartsWith("/infrakitchen", AllTabs[i].path) && !StartsWith(AllTabs[i].path, "/infrakitchen")
  {
    if i < 4 {
      MountApartLow(i);
    } else if i < 8 {
      MountApartMid(i);
    } else {
      MountApartHigh(i);
    }
  }

  lemma MountApartLow(i: nat)
    requires i < 4
    ensures !StartsWith("/infrakitchen", AllTabs[i].path) && !StartsWith(AllTabs[i].path, "/infrakitchen")
  {
    if i == 2 {
      ApartAt("/infrakitchen", AllTabs[i].path, 3);
    } else {
      ApartAt("/infrakitchen", AllTabs[i].path, 1);
    }
  }

  lemma MountApartMid(i: nat)
    requires 4 <= i < 8
    ensures !StartsWith("/infrakitchen", AllTabs[i].path) && !StartsWith(AllTabs[i].path, "/infrakitchen")
  {
    ApartAt("/infrakitchen", AllTabs[i].path, 1);
  }

  lemma MountApartHigh(i: nat)
    requires 8 <= i < |AllTabs|
    ensures !StartsWith("/infrakitchen", AllTabs[i].path) && !StartsWith(AllTabs[i].path, "/infrakitchen")
  {
    ApartAt("/infrakitchen", AllTabs[i].path, 1);
  }

  /** Mounted at `/infrakitchen`, every tab change lands on a path that selects the chosen tab below the same base. */
  lemma MountedTabChangeRoundTrip(permissions: Permissions, index: int)
    requires 0 <= index < |VisibleTabs(permissions)|
    ensures var tabs := VisibleTabs(permissions);
            var target := TabChangeTarget(tabs, "/infrakitchen", index);
            target.Some? && BasePath(target.value, Paths(tabs)) == "/infrakitchen"
            && SelectedTabIndex(target.value, "/infrakitchen", tabs) == index
  {
    var tabs := VisibleTabs(permissions);
    assert Segment("/infrakitchen");
    forall k | 0 <= k < |tabs|
      ensures !StartsWith("/infrakitchen", tabs[k].path) && !StartsWith(tabs[k].path, "/infrakitchen")
    {
      var i :| 0 <= i < |AllTabs| && AllTabs[i] == tabs[k];
      MountApart(i);
    }
    TabChangeRoundTrip(permissions, "/infrakitchen", index);
  }

  // ------------------------------------------------------------------ what is rendered

  /** The header tab bar. */
  datatype TabBar = TabBar(selectedIndex: nat, tabs: seq<Tab>)

  /** What `PermissionFilteredRouter` renders: nothing, or the accessible routes (by path). */
  datatype Router = NoRoutes | RouteList(routes: seq<string>)

  /** What the shell renders: a loading placeholder, or the page with an optional tab bar and the router. */
  datatype View = Placeholder | Page(tabBar: Option<TabBar>, router: Router)

  /** `PermissionFilteredRouter`: a resolved but empty permission map renders no routes. */
  function RouterView(permissions: Permissions, accessibleRoutes: seq<string>): (r: Router)
    ensures r.NoRoutes? <==> |permissions| == 0
    ensures r.RouteList? ==> r.routes == accessibleRoutes
  {
    if |permissions| == 0 then NoRoutes else RouteList(accessibleRoutes)
  }

  /**
   * The shell's render decision. `accessibleRoutes` is what the component library's
   * `useFilteredProtectedRoutes` returns.
   */
  function Render(loading: bool, permissions: Permissions, pathname: string,
                  accessibleRoutes: seq<string>): (v: View)
    ensures v.Placeholder? <==> loading
    ensures v.Page? ==> (v.tabBar.Some? <==> |VisibleTabs(permissions)| > 0)
    ensures v.Page? && v.tabBar.Some? ==>
              v.tabBar.value.tabs == VisibleTabs(permissions)
              && v.tabBar.value.selectedIndex < |v.tabBar.value.tabs|
              && v.tabBar.value.selectedIndex ==
                   SelectedTabIndex(pathname, BasePath(pathname, Paths(VisibleTabs(permissions))),
                                    VisibleTabs(permissions))
    ensures v.Page? ==> v.router == RouterView(permissions, accessibleRoutes)
  {
    if loading then Placeholder
    else
      var tabs := VisibleTabs(permissions);
      var base := BasePath(pathname, Paths(tabs));
      Page(if |tabs| > 0 then Some(TabBar(SelectedTabIndex(pathname, base, tabs), tabs)) else None,
           RouterView(permissions, accessibleRoutes))
  }

  /** A resolved, empty permission map renders a page with no tabs and no routes. */
  lemma EmptyPermissionsRenderNothing(pathname: string, accessibleRoutes: seq<string>)
    ensures Render(false, map[], pathname, accessibleRoutes) == Page(None, NoRoutes)
  {
    NoPermissionsNoTabs();
  }
}
