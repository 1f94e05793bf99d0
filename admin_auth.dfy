/**
 * The admin panel's client-side login: a fixed list of accounts, a flag kept in the
 * browser's local storage, the redirect each protected page performs on load, and
 * the bottom navigation bar of the admin pages.
 */
module AdminAuth {
  import opened Wrappers
  import opened Text
  import opened Navigation

  datatype Account = Account(username: string, password: string)

  /** The accounts the login form accepts. */
  const AdminUsers: seq<Account> := [Account("admin", "admin123")]

  /** The first account with both the given username and the given password. */
  function FindUser(users: seq<Account>, username: string, password: string): (r: Option<Account>)
    ensures r.Some? <==> exists i :: 0 <= i < |users| && users[i] == Account(username, password)
    ensures r.Some? ==> r.value == Account(username, password)
  {
    if users == [] then None
    else if users[0].username == username && users[0].password == password then Some(users[0])
    else FindUser(users[1..], username, password)
  }

  /** Only the one listed account logs in. */
  lemma OnlyListedAccountLogsIn(username: string, password: string)
    ensures FindUser(AdminUsers, username, password).Some? <==> username == "admin" && password == "admin123"
  {
  }

  /** The `adminLoggedIn` entry of local storage: absent, or the string last stored. */
  class AdminSession {
    var flag: Option<string>

    /** A page opened on whatever local storage holds. */
    constructor (stored: Option<string>)
      ensures flag == stored
    {
      flag := stored;
    }

    /** `isLoggedIn`: the entry is exactly the string `true`. */
    predicate IsLoggedIn()
      reads this
    {
      flag == Some("true")
    }

    /** `login`: succeeds iff an account matches; only then is the entry set. */
    method Login(username: string, password: string) returns (ok: bool)
      modifies this
      ensures ok <==> FindUser(AdminUsers, username, password).Some?
      ensures ok ==> flag == Some("true") && IsLoggedIn()
      ensures !ok ==> flag == old(flag)
    {
      var user := FindUser(AdminUsers, username, password);
      if user.Some? {
        flag := Some("true");
        ok := true;
      } else {
        ok := false;
      }
    }

    /** `logout`: the entry is removed and the browser is sent to the login page. */
    method Logout() returns (target: string)
      modifies this
      ensures flag == None && !IsLoggedIn()
      ensures target == "login.html"
    {
      flag := None;
      target := "login.html";
    }
  }

  /**
   * `checkAuth`: the redirects a page performs on load, in order. A visitor who is not
   * logged in is sent to the login page unless already on it; a logged-in visitor on
   * the login page is sent to the dashboard.
   */
  function CheckAuth(loggedIn: bool, pathname: string): (redirects: seq<string>)
    ensures |redirects| <= 1
    ensures !loggedIn && !Contains(pathname, "login.html") ==> redirects == ["login.html"]
    ensures loggedIn && Contains(pathname, "login.html") ==> redirects == ["dashboard.html"]
    ensures redirects == [] <==> (loggedIn <==> !Contains(pathname, "login.html"))
  {
    var onLogin := Contains(pathname, "login.html");
    var first := if !loggedIn && !onLogin then ["login.html"] else [];
    var second := if loggedIn && onLogin then ["dashboard.html"] else [];
    first + second
  }

  /** After logging out, every page but the login page sends the visitor back to it. */
  method LogoutLocksPages(session: AdminSession, pathname: string) returns (redirects: seq<string>)
    modifies session
    ensures session.flag == None
    ensures Contains(pathname, "login.html") ==> redirects == []
    ensures !Contains(pathname, "login.html") ==> redirects == ["login.html"]
  {
    var _ := session.Logout();
    redirects := CheckAuth(session.IsLoggedIn(), pathname);
  }

  /** After logging in with the listed account, the login page forwards to the dashboard. */
  method LoginForwardsToDashboard(session: AdminSession, pathname: string) returns (ok: bool, redirects: seq<string>)
    requires Contains(pathname, "login.html")
    modifies session
    ensures ok && session.IsLoggedIn()
    ensures redirects == ["dashboard.html"]
  {
    OnlyListedAccountLogsIn("admin", "admin123");
    ok := session.Login("admin", "admin123");
    redirects := CheckAuth(session.IsLoggedIn(), pathname);
  }

  // ---------------------------------------------------------------------------
  // Admin bottom navigation
  // ---------------------------------------------------------------------------

  const AdminLinks: seq<string> := ["dashboard.html", "products.html", "branches.html", "settings.html"]

  /**
   * The admin bottom bar: not injected outside `/admin/` or on the login page; otherwise
   * the `active` flag of each link, the dashboard being the default page.
   */
  function AdminNav(pathname: string): (nav: Option<seq<bool>>)
    ensures nav.None? <==> !Contains(pathname, "/admin/") || EndsWith(pathname, "login.html")
    ensures nav.Some? ==> |nav.value| == |AdminLinks|
    ensures nav.Some? ==> forall i :: 0 <= i < |AdminLinks| ==>
      (nav.value[i] <==> AdminLinks[i] == CurrentPage(pathname, "dashboard.html"))
  {
    if !Contains(pathname, "/admin/") || EndsWith(pathname, "login.html") then None
    else Some(ActiveFlags(AdminLinks, CurrentPage(pathname, "dashboard.html")))
  }

  lemma AdminLinksAreDistinct()
    ensures Distinct(AdminLinks)
  {
    var l := AdminLinks;
    assert l[0][0] == 'd' && l[1][0] == 'p' && l[2][0] == 'b' && l[3][0] == 's';
  }

  /** When the bar is shown, at most one link is active: the current page's, if it has one. */
  lemma AdminNavMarksOnePage(pathname: string)
    requires AdminNav(pathname).Some?
    ensures var flags := AdminNav(pathname).value;
      && (forall i, j :: 0 <= i < j < |AdminLinks| ==> !(flags[i] && flags[j]))
      && ((exists i :: 0 <= i < |AdminLinks| && flags[i]) <==> CurrentPage(pathname, "dashboard.html") in AdminLinks)
  {
    var current := CurrentPage(pathname, "dashboard.html");
    assert AdminNav(pathname).value == ActiveFlags(AdminLinks, current);
    AdminLinksAreDistinct();
    AtMostOneActive(AdminLinks, current);
  }

  /** The login page never shows the bar, wherever it is served from. */
  lemma LoginPageHasNoNav(dir: string)
    ensures AdminNav(dir + "login.html") == None
  {
    var p := dir + "login.html";
    assert p[|p| - 10..] == "login.html";
  }

  /** A page outside `/admin/` never shows the bar. */
  lemma OutsideAdminHasNoNav(pathname: string)
    requires !Contains(pathname, "/admin/")
    ensures AdminNav(pathname) == None
  {
  }

  /** `/admin/` itself is the dashboard. */
  lemma AdminRootIsDashboard()
    ensures AdminNav("/admin/") == Some([true, false, false, false])
  {
    ContainsInfix("", "/admin/", "");
    assert "" + "/admin/" + "" == "/admin/";
    DirectoryIsDefault("/admin", "dashboard.html");
    assert "/admin" + "/" == "/admin/";
    DashboardIsFirst();
  }

  lemma DashboardIsFirst()
    ensures ActiveFlags(AdminLinks, "dashboard.html") == [true, false, false, false]
  {
    AdminLinksAreDistinct();
    var f := ActiveFlags(AdminLinks, AdminLinks[0]);
    assert f[0] && !f[1] && !f[2] && !f[3];
  }

  /** A page under `/admin/`, not a login page, activates its own link. */
  lemma AdminPageIsActive(page: string)
    requires page != "" && NoneIs(page, '/') && !EndsWith(page, "login.html")
    ensures AdminNav("/admin/" + page) == Some(ActiveFlags(AdminLinks, page))
  {
    var p := "/admin/" + page;
    ContainsInfix("", "/admin/", page);
    assert "" + "/admin/" + page == p;
    if |page| < 10 {
      assert p[|p| - |page| - 1] == '/';
      assert NoneIs("login.html", '/');
    } else {
      assert p[|p| - 10..] == page[|page| - 10..];
    }
    PageOfFile("/admin", page);
    assert "/admin" + "/" + page == p;
  }
}
