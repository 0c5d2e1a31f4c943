/**
  The navigation and route guard every page loads (public/auth.js): the current page
  name, the public-route test, the navigation links and which one is active, the page
  title, the authorisation headers and logging out.
*/
module Auth {
  import opened Wrappers
  import opened Text

  const PublicRoutes: seq<string> := ["/login.html", "/register.html", "/contact.html", "/index.html"]

  /** `pathname.split('/').pop().toLowerCase()`. */
  function CurrentPage(pathname: string): (page: string)
    ensures '/' !in page
    ensures exists k :: 0 <= k <= |pathname| && page == Lower(pathname[k..])
  {
    var parts := Split(pathname, '/');
    SplitLast(pathname, '/');
    var last := parts[|parts| - 1];
    assert last == pathname[|pathname| - |last|..];
    assert forall i :: 0 <= i < |last| ==> last[i] != '/';
    Lower(last)
  }

  /** The page is whatever follows the last '/' of the path, lower-cased. */
  lemma CurrentPageOfFile(dir: string, file: string)
    requires '/' !in file
    ensures CurrentPage(dir + "/" + file) == Lower(file)
  {
    var s := dir + "/" + file;
    SplitLast(s, '/');
    var parts := Split(s, '/');
    var l := parts[|parts| - 1];
    assert s[|s| - |file| - 1] == '/';
    assert l == s[|s| - |file|..] == file;
  }

  /** `PUBLIC_ROUTES.some(route => route.endsWith(currentPage))`. */
  predicate IsPublicPage(page: string)
  {
    exists i :: 0 <= i < |PublicRoutes| && EndsWith(PublicRoutes[i], page)
  }

  /** The four public pages are public under their own names; so is an empty page name
      (a path ending in '/'), and so is any tail of a public route such as "ex.html". */
  lemma PublicPages()
    ensures IsPublicPage("login.html") && IsPublicPage("register.html")
    ensures IsPublicPage("contact.html") && IsPublicPage("index.html")
    ensures IsPublicPage("") && IsPublicPage("ex.html")
  {
    assert EndsWith(PublicRoutes[0], "login.html");
    assert EndsWith(PublicRoutes[1], "register.html");
    assert EndsWith(PublicRoutes[2], "contact.html");
    assert EndsWith(PublicRoutes[3], "index.html");
    assert EndsWith(PublicRoutes[0], "");
    assert EndsWith(PublicRoutes[3], "ex.html");
  }

  /** A page name longer than every route is never public. */
  lemma LongPagesGuarded(page: string)
    requires |page| > 14
    ensures !IsPublicPage(page)
  {
  }

  /** Where the guard sends the browser: a guest on a page that is not public goes to the
      login page; everyone else stays. */
  function RouteGuard(pathname: string, loggedIn: bool): (redirect: Option<string>)
    ensures redirect.Some? <==> !loggedIn && !IsPublicPage(CurrentPage(pathname))
    ensures redirect.Some? ==> redirect.value == "login.html"
  {
    if !IsPublicPage(CurrentPage(pathname)) && !loggedIn then Some("login.html") else None
  }

  /** Nobody, signed in or not, is redirected away from the login page, whatever directory serves it. */
  lemma GuardLetsThrough(dir: string, loggedIn: bool)
    ensures RouteGuard(dir + "/login.html", loggedIn) == None
  {
    var name := "login.html";
    CurrentPageOfFile(dir, name);
    assert dir + "/" + name == dir + "/login.html";
    assert forall i :: 0 <= i < |name| ==> !IsUpper(name[i]);
    LowerNoUpper(name);
    assert EndsWith(PublicRoutes[0], name);
  }

  datatype NavLink = NavLink(href: string, text: string)

  const UserLinks: seq<NavLink> := [
    NavLink("main.html", "Home Page"), NavLink("parking.html", "Parking"),
    NavLink("account.html", "Account Management"), NavLink("vManage.html", "Vehicle Management"),
    NavLink("notif.html", "Notifications")]

  const GuestLinks: seq<NavLink> := [
    NavLink("index.html", "Home Page"), NavLink("login.html", "Log In"), NavLink("register.html", "Register")]

  function NavLinks(loggedIn: bool): (links: seq<NavLink>)
    ensures |links| == if loggedIn then 5 else 3
  {
    if loggedIn then UserLinks else GuestLinks
  }

  /** The `active` class of each link: its lower-cased href is the current page. */
  function ActiveFlags(links: seq<NavLink>, page: string): (flags: seq<bool>)
    ensures |flags| == |links|
    ensures forall i :: 0 <= i < |links| ==> (flags[i] <==> Lower(links[i].href) == page)
  {
    seq(|links|, i requires 0 <= i < |links| => Lower(links[i].href) == page)
  }

  /** At most one link is marked active on any page. */
  lemma AtMostOneActive(loggedIn: bool, page: string, i: nat, j: nat)
    requires i < j < |NavLinks(loggedIn)|
    ensures !(ActiveFlags(NavLinks(loggedIn), page)[i] && ActiveFlags(NavLinks(loggedIn), page)[j])
  {
    var links := NavLinks(loggedIn);
    assert Lower(links[i].href)[0] == ToLower(links[i].href[0]);
    assert Lower(links[j].href)[0] == ToLower(links[j].href[0]);
  }

  /** Every link is active on its own page, whatever directory the page is served from. */
  lemma LinkActiveOnItsPage(loggedIn: bool, i: nat, dir: string)
    requires i < |NavLinks(loggedIn)|
    ensures ActiveFlags(NavLinks(loggedIn), CurrentPage(dir + "/" + NavLinks(loggedIn)[i].href))[i]
  {
    var href := NavLinks(loggedIn)[i].href;
    assert '/' !in href;
    CurrentPageOfFile(dir, href);
  }

  /** The text of `.active-page`: the first ".html" removed, dashes turned into spaces and the
      first character upper-cased. */
  function PageTitle(page: string): (title: string)
    ensures |title| == |page| - (if Contains(page, ".html") then 5 else 0)
    ensures '-' !in title
    ensures title != [] ==> !IsLower(title[0])
  {
    var name := ReplaceAllChar(ReplaceFirst(page, ".html", ""), '-', ' ');
    if name == [] then [] else [ToUpper(name[0])] + name[1..]
  }

  /** For a file name `stem.html` whose stem has no '.', the title is the stem with dashes as
      spaces and a capital first letter. */
  lemma PageTitleOfStem(stem: string)
    requires '.' !in stem && stem != []
    ensures PageTitle(stem + ".html")[0] == ToUpper(if stem[0] == '-' then ' ' else stem[0])
    ensures PageTitle(stem + ".html")[1..] == ReplaceAllChar(stem, '-', ' ')[1..]
  {
    var s := stem + ".html";
    assert MatchAt(s, ".html", |stem|);
    var k := IndexOf(s, ".html").value;
    assert s[k..k + 5][0] == '.';
    assert k == |stem|;
    assert s[..k] == stem;
    assert ReplaceFirst(s, ".html", "") == stem;
  }

  /** The stored user as far as the headers go: `token` is `None` when the field is absent. */
  datatype StoredUser = StoredUser(token: Option<string>)

  /** `getAuthHeaders`: nothing for a guest; otherwise a bearer token (the text "undefined"
      when the stored user has no token) and a JSON content type. */
  function GetAuthHeaders(user: Option<StoredUser>): (headers: map<string, string>)
    ensures user.None? <==> headers == map[]
    ensures user.Some? ==>
      (headers.Keys == {"Authorization", "Content-Type"}
       && headers["Content-Type"] == "application/json"
       && StartsWith(headers["Authorization"], "Bearer ")
       && headers["Authorization"][7..] == user.value.token.GetOr("undefined"))
  {
    if user.None? then map[]
    else
      var auth := "Bearer " + user.value.token.GetOr("undefined");
      assert auth[..7] == "Bearer ";
      var headers := map["Authorization" := auth, "Content-Type" := "application/json"];
      assert "Authorization" in headers;
      headers
  }

  /** The browser's local storage. */
  class BrowserStorage {
    var items: map<string, string>

    constructor (initial: map<string, string>)
      ensures items == initial
    {
      items := initial;
    }

    predicate LoggedIn()
      reads this
    {
      "user" in items
    }

    /** `logout`: the stored user is removed, nothing else, and the browser goes to the
        login page. */
    method Logout() returns (redirect: string)
      modifies this
      ensures !LoggedIn() && items == old(items) - {"user"}
      ensures redirect == "login.html"
    {
      items := items - {"user"};
      redirect := "login.html";
    }
  }

  /** After logging out, every page that is not public sends the browser to the login page. */
  method LogoutThenVisit(storage: BrowserStorage, pathname: string) returns (redirect: Option<string>)
    modifies storage
    ensures !IsPublicPage(CurrentPage(pathname)) ==> redirect == Some("login.html")
    ensures IsPublicPage(CurrentPage(pathname)) ==> redirect == None
  {
    var _ := storage.Logout();
    redirect := RouteGuard(pathname, storage.LoggedIn());
  }
}
