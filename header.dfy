/**
 * The page title in the header, `getPageTitle` in src/components/layout/Header.tsx:
 * "Dashboard" at the root, otherwise the path without its leading character and with
 * the next one upper-cased.
 */
module Header {
  import opened Text

  /** `path === '/' ? 'Dashboard' : path.slice(1).charAt(0).toUpperCase() + path.slice(2)`. */
  function PageTitle(path: string): string {
    if path == "/" then "Dashboard"
    else if |path| < 2 then ""
    else [UpperChar(path[1])] + path[2..]
  }

  /**
   * Away from the root, the title is the path without its leading character, the same
   * letters up to case: one character shorter, lower-casing both gives the same text,
   * and only the first character can differ from the path's.
   */
  lemma TitleIsPathSegment(path: string)
    requires path != "/" && |path| >= 1
    ensures |PageTitle(path)| == |path| - 1
    ensures ToLower(PageTitle(path)) == ToLower(path[1..])
    ensures forall i :: 1 <= i < |PageTitle(path)| ==> PageTitle(path)[i] == path[i + 1]
  {
    if |path| >= 2 {
      var t := PageTitle(path);
      forall i | 0 <= i < |t| ensures LowerChar(t[i]) == LowerChar(path[1..][i]) {
        if i == 0 {
          LowerOfUpper(path[1]);
        }
      }
    }
  }

  /** A character and its upper case have the same lower case. */
  lemma LowerOfUpper(c: char)
    ensures LowerChar(UpperChar(c)) == LowerChar(c)
  {
    if 'a' <= c <= 'z' {
      LowerCharOfUpper(c);
    }
  }

  /**
   * For a route `/segment` whose segment starts with a lower-case letter, the path is
   * recovered from the title: a slash, the title's first letter lowered, the rest.
   */
  lemma PathFromTitle(path: string)
    requires |path| >= 2 && path[0] == '/' && 'a' <= path[1] <= 'z'
    ensures "/" + [LowerChar(PageTitle(path)[0])] + PageTitle(path)[1..] == path
  {
    LowerCharOfUpper(path[1]);
    assert path == [path[0]] + [path[1]] + path[2..];
  }

  /** The routes of the application and the sidebar's label for each. */
  const Routes: seq<string> := ["/", "/transactions", "/budgets", "/goals", "/reports", "/settings"]
  const SidebarLabels: seq<string> := ["Dashboard", "Transactions", "Budgets", "Goals", "Reports", "Settings"]

  /** On every route the header shows the sidebar's label for it. */
  lemma TitlesMatchSidebar()
    ensures |Routes| == |SidebarLabels|
    ensures forall i :: 0 <= i < |Routes| ==> PageTitle(Routes[i]) == SidebarLabels[i]
  {
    forall i | 0 <= i < |Routes| ensures PageTitle(Routes[i]) == SidebarLabels[i] {
      if i > 0 {
        var segment := Routes[i][1..];
        assert Routes[i] == "/" + segment;
        RouteTitle(segment, SidebarLabels[i]);
      }
    }
  }

  /** The title of `/segment`, for a segment that starts with a lower-case letter. */
  lemma RouteTitle(segment: string, title: string)
    requires |segment| >= 1 && |title| == |segment|
    requires title[0] == UpperChar(segment[0]) && title[1..] == segment[1..]
    ensures PageTitle("/" + segment) == title
  {
    var path := "/" + segment;
    assert path[1] == segment[0] && path[2..] == segment[1..];
    assert title == [title[0]] + title[1..];
  }
}
