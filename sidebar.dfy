/**
 * The navigation of the admin sidebar (components/admin-sidebar.tsx): the
 * fixed list of entries and the rule that highlights the current one.
 *
 * Each entry's `href` is parsed with `new URL(href, 'http://localhost')`; the
 * model stores the two parts the rule reads, the path and the `section`
 * query parameter, next to the `href`, and builds each entry from them.
 */
module Sidebar {
  import opened Wrappers
  import opened Strings

  /** A `navItems` entry (`caption` is its `label`) with the path and `section` parameter of its `href`. */
  datatype NavItem = NavItem(href: string, caption: string, pathname: string, section: Option<string>)

  /** An entry for a page: its `href` is a bare path, with no `section` parameter. */
  function PageEntry(href: string, caption: string): NavItem
  {
    NavItem(href, caption, href, None)
  }

  /** An entry for a section of the post list: `/posts?section=<section>`, labelled by the section. */
  function SectionEntry(section: string): NavItem
  {
    NavItem("/posts?section=" + section, section, "/posts", Some(section))
  }

  const AllPosts: NavItem := PageEntry("/posts", "All Posts")
  const NewsItem: NavItem := SectionEntry("News")
  const MarketsItem: NavItem := SectionEntry("Markets")
  const TopItem: NavItem := SectionEntry("Top")
  const PressItem: NavItem := SectionEntry("Press Release")
  const TrendingItem: NavItem := PageEntry("/trending", "Trending")
  const SettingsItem: NavItem := PageEntry("/settings", "Settings")

  /** `navItems`, in display order. */
  const NavItems: seq<NavItem> :=
    [AllPosts, NewsItem, MarketsItem, TopItem, PressItem, TrendingItem, SettingsItem]

  /**
   * The seven entries in display order, each with its `href` and label;
   * every `href` is the stored path, followed by `?section=` and the
   * section when the entry has one.
   */
  lemma NavItemsListed()
    ensures |NavItems| == 7
    ensures NavItems[0].href == "/posts" && NavItems[0].caption == "All Posts"
    ensures NavItems[1].href == "/posts?section=News" && NavItems[1].caption == "News"
    ensures NavItems[2].href == "/posts?section=Markets" && NavItems[2].caption == "Markets"
    ensures NavItems[3].href == "/posts?section=Top" && NavItems[3].caption == "Top"
    ensures NavItems[4].href == "/posts?section=Press Release" && NavItems[4].caption == "Press Release"
    ensures NavItems[5].href == "/trending" && NavItems[5].caption == "Trending"
    ensures NavItems[6].href == "/settings" && NavItems[6].caption == "Settings"
    ensures forall item :: item in NavItems ==> HrefAgrees(item)
  {
    forall item | item in NavItems ensures HrefAgrees(item) {
      if item.section.Some? {
        SectionEntryAgrees(item.caption);
      }
    }
  }

  /** The `href` is the path, then `?section=` and the section when there is one. */
  ghost predicate HrefAgrees(item: NavItem)
  {
    item.href == item.pathname + (if item.section.Some? then "?section=" + item.section.value else "")
  }

  lemma SectionEntryAgrees(section: string)
    ensures HrefAgrees(SectionEntry(section))
  {
    assert "/posts?section=" + section == "/posts" + ("?section=" + section);
  }

  /** A query value is truthy: present and not the empty string. */
  predicate Truthy(v: Option<string>)
  {
    v.Some? && v.value != ""
  }

  /**
   * `isActive` of one entry, for the current path and the current value of
   * the `section` query parameter (`None` when it is absent).
   */
  function IsActive(item: NavItem, pathname: string, sectionParam: Option<string>): bool
  {
    if pathname == item.pathname then
      if Truthy(item.section) then sectionParam == item.section
      else !Truthy(sectionParam)
    else item.href != "/" && StartsWith(pathname, item.href)
  }

  /** On its own path a section entry is active exactly when the `section` parameter equals its section. */
  lemma SectionEntryRule(item: NavItem, sectionParam: Option<string>)
    requires item in NavItems && item.section.Some?
    ensures IsActive(item, item.pathname, sectionParam) <==> sectionParam == item.section
  {
  }

  /** On its own path "All Posts" is active exactly when the `section` parameter is absent or empty. */
  lemma AllPostsRule(sectionParam: Option<string>)
    ensures IsActive(AllPosts, "/posts", sectionParam) <==> sectionParam.None? || sectionParam.value == ""
  {
  }

  /** Away from its own path an entry is active exactly when the path starts with its `href`. */
  lemma PrefixRule(item: NavItem, pathname: string, sectionParam: Option<string>)
    requires item in NavItems && pathname != item.pathname
    ensures IsActive(item, pathname, sectionParam) <==> StartsWith(pathname, item.href)
  {
  }

  /** A path without a query never starts with an `href` that has a query at position `k`. */
  lemma NoQueryPrefix(pathname: string, href: string, k: nat)
    requires '?' !in pathname && k < |href| && href[k] == '?'
    ensures !StartsWith(pathname, href)
  {
    if |href| <= |pathname| {
      assert pathname[k] != '?';
      assert pathname[..|href|][k] != href[k];
    }
  }

  /** On "/posts" at most one entry is highlighted. */
  lemma AtMostOneActiveOnPosts(sectionParam: Option<string>)
    ensures forall i, j :: 0 <= i < j < |NavItems| && IsActive(NavItems[i], "/posts", sectionParam)
              ==> !IsActive(NavItems[j], "/posts", sectionParam)
  {
    assert !StartsWith("/posts", "/trending") && !StartsWith("/posts", "/settings");
  }

  /** On "/posts" exactly one entry is highlighted when the parameter is absent, empty or a section. */
  lemma OneActiveOnPosts(sectionParam: Option<string>)
    requires !Truthy(sectionParam) || sectionParam.value in ["News", "Markets", "Top", "Press Release"]
    ensures exists i :: 0 <= i < |NavItems| && IsActive(NavItems[i], "/posts", sectionParam)
  {
    if !Truthy(sectionParam) {
      assert IsActive(NavItems[0], "/posts", sectionParam);
    } else if sectionParam.value == "News" {
      assert IsActive(NavItems[1], "/posts", sectionParam);
    } else if sectionParam.value == "Markets" {
      assert IsActive(NavItems[2], "/posts", sectionParam);
    } else if sectionParam.value == "Top" {
      assert IsActive(NavItems[3], "/posts", sectionParam);
    } else {
      assert IsActive(NavItems[4], "/posts", sectionParam);
    }
  }

  /**
   * `usePathname` gives a path without a query. On any such path other than
   * "/posts" no section entry is highlighted, and "All Posts" is highlighted
   * on every path below "/posts", such as "/posts/new".
   */
  lemma SectionEntriesOnlyOnPosts(pathname: string, sectionParam: Option<string>)
    requires '?' !in pathname && pathname != "/posts"
    ensures forall item :: item in NavItems && item.section.Some? ==> !IsActive(item, pathname, sectionParam)
    ensures IsActive(AllPosts, pathname, sectionParam) <==> StartsWith(pathname, "/posts")
  {
    forall item | item in NavItems && item.section.Some?
      ensures !IsActive(item, pathname, sectionParam)
    {
      assert item.href[6] == '?';
      NoQueryPrefix(pathname, item.href, 6);
    }
  }

  /** An active page entry fixes the second character of the path. */
  lemma ActivePageEntryFixesPath(pathname: string, sectionParam: Option<string>)
    ensures IsActive(AllPosts, pathname, sectionParam) ==> |pathname| > 1 && pathname[1] == 'p'
    ensures IsActive(TrendingItem, pathname, sectionParam) ==> |pathname| > 1 && pathname[1] == 't'
    ensures IsActive(SettingsItem, pathname, sectionParam) ==> |pathname| > 1 && pathname[1] == 's'
  {
    if |pathname| > 1 && StartsWith(pathname, "/posts") {
      assert pathname[1] == pathname[..6][1];
    }
    if |pathname| > 1 && StartsWith(pathname, "/trending") {
      assert pathname[1] == pathname[..9][1];
    }
    if |pathname| > 1 && StartsWith(pathname, "/settings") {
      assert pathname[1] == pathname[..9][1];
    }
  }

  /** On every path `usePathname` can give, at most one entry is highlighted. */
  lemma AtMostOneActive(pathname: string, sectionParam: Option<string>)
    requires '?' !in pathname
    ensures forall i, j :: 0 <= i < j < |NavItems| && IsActive(NavItems[i], pathname, sectionParam)
              ==> !IsActive(NavItems[j], pathname, sectionParam)
  {
    if pathname == "/posts" {
      AtMostOneActiveOnPosts(sectionParam);
    } else {
      SectionEntriesOnlyOnPosts(pathname, sectionParam);
      ActivePageEntryFixesPath(pathname, sectionParam);
    }
  }

  /**
   * "Trending" and "Settings" go through the path-equality branch on their own
   * path, so a truthy `section` parameter switches them off there, while a
   * deeper path is matched by prefix. The prefix is raw: "/postsx" highlights
   * "All Posts".
   */
  lemma PageEntryExamples()
    ensures IsActive(TrendingItem, "/trending", None)
    ensures !IsActive(TrendingItem, "/trending", Some("News"))
    ensures IsActive(SettingsItem, "/settings/profile", Some("News"))
    ensures IsActive(AllPosts, "/posts/new", Some("News")) && !IsActive(NewsItem, "/posts/new", Some("News"))
    ensures IsActive(AllPosts, "/postsx", None)
  {
    assert "/settings/profile"[..9] == "/settings";
    assert "/posts/new"[..6] == "/posts";
    assert "/postsx"[..6] == "/posts";
    assert |"/posts/new"| < |"/posts?section=News"|;
  }
}
