/** The sidebar: its seven links and which of them is highlighted for the
    current path. */
module Sidebar {
  import Text

  /** A link: title, target path and accent colour. */
  datatype NavItem = NavItem(title: string, url: string, color: string)

  const NavigationItems: seq<NavItem> := [
    NavItem("Dashboard", "/", "ocean-primary"),
    NavItem("Geographic", "/geographic", "tropical-light"),
    NavItem("Analytics", "/analytics", "volcanic-light")]

  const EntityItems: seq<NavItem> := [
    NavItem("Industries", "/industries", "sunset-coral"),
    NavItem("Companies", "/companies", "tropical-primary"),
    NavItem("Members", "/members", "plumeria-light"),
    NavItem("Events", "/events", "plumeria-primary")]

  /** Both groups, in the order they are drawn. */
  const AllItems: seq<NavItem> := NavigationItems + EntityItems

  /** `isActive`: the root link only on the root itself, every other link
      on any path that starts with its url, character by character. */
  predicate IsActive(currentPath: string, path: string) {
    if path == "/" then currentPath == "/" else Text.StartsWith(currentPath, path)
  }

  const ActiveClasses := "bg-white/20 text-white shadow-lg"
  const InactiveClasses := "text-white/80 hover:bg-white/10 hover:text-white transition-all duration-200"

  /** `getNavClasses`: the colour argument is not used. */
  function NavClasses(active: bool, color: string): (r: string)
    ensures r == ActiveClasses <==> active
    ensures r == InactiveClasses <==> !active
  {
    if active then ActiveClasses else InactiveClasses
  }

  /** Two links in the same state look the same whatever their colours. */
  lemma NavClassesIgnoreColor(active: bool, c1: string, c2: string)
    ensures NavClasses(active, c1) == NavClasses(active, c2)
  {
  }

  /** Every link is highlighted on its own page. */
  lemma ActiveOnOwnPage(i: int)
    requires 0 <= i < |AllItems|
    ensures IsActive(AllItems[i].url, AllItems[i].url)
  {
  }

  /** On the root path the dashboard link is the only highlighted one. */
  lemma OnlyDashboardAtRoot(i: int)
    requires 0 <= i < |AllItems|
    ensures IsActive("/", AllItems[i].url) <==> i == 0
  {
    if i != 0 {
      assert |AllItems[i].url| > 1;
    }
  }

  /** The match is on characters, not path segments: a sub-page keeps its
      link highlighted, and so does a longer word sharing the prefix. */
  lemma PrefixNotSegmentAware()
    ensures IsActive("/members/42", "/members")
    ensures IsActive("/membership", "/members")
    ensures !IsActive("/geographic", "/")
  {
    assert "/members/42"[..8] == "/members";
    assert "/membership"[..8] == "/members";
  }

  /** Second characters of the non-root links; they are all different. */
  lemma SecondChars(i: int)
    requires 1 <= i < |AllItems|
    ensures |AllItems[i].url| > 1
    ensures AllItems[i].url[1] == ['g', 'a', 'i', 'c', 'm', 'e'][i - 1]
  {
  }

  /** Whatever the path, at most one link is highlighted. */
  lemma AtMostOneActive(currentPath: string, i: int, j: int)
    requires 0 <= i < |AllItems| && 0 <= j < |AllItems|
    requires IsActive(currentPath, AllItems[i].url) && IsActive(currentPath, AllItems[j].url)
    ensures i == j
  {
    if i != 0 && j != 0 {
      SecondChars(i);
      SecondChars(j);
      assert currentPath[..|AllItems[i].url|][1] == currentPath[1];
      assert currentPath[..|AllItems[j].url|][1] == currentPath[1];
    } else if i == 0 && j != 0 {
      OnlyDashboardAtRoot(j);
    } else if j == 0 && i != 0 {
      OnlyDashboardAtRoot(i);
    }
  }
}
