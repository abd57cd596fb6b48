/** The job seeker's sidebar, client/src/components/Navbar/Sidebar.jsx: it reads
    the profile flag once on mount, shows the navigation links only to a user
    with a profile, highlights the link of the current path, and logs out by
    clearing the session before the logout request. */
module Sidebar {
  import opened Js
  import opened Session

  datatype Item = Logo | Link(to: string, text: string) | LogoutButton

  /** The six links, in rendering order. */
  const Links: seq<Item> := [
    Link("/dashboard", "Jobseeker Dashboard"),
    Link("/dashboard/findjob", "Find Jobs"),
    Link("/dashboard/appliedjob", "Applied Jobs"),
    Link("/dashboard/browsecompany", "Browse Company"),
    Link("/dashboard/jobseeker-setting", "Setting"),
    Link("/dashboard/myprofile", "Profile")
  ]

  /** The items rendered for a given profile flag, top to bottom. */
  function Items(hasProfile: bool): (items: seq<Item>)
    ensures |items| >= 2 && items[0] == Logo && items[|items| - 1] == LogoutButton
    ensures forall it :: it in items && it.Link? ==> hasProfile
    ensures hasProfile ==> forall l :: l in Links ==> l in items
  {
    [Logo] + (if hasProfile then Links else []) + [LogoutButton]
  }

  /** A link is highlighted when the current pathname is its target exactly. */
  predicate IsActive(pathname: string, to: string)
  {
    pathname == to
  }

  /** The six targets differ, so following a link highlights that link and no
      other, and on any path at most one link is highlighted. */
  lemma ActiveLinkUnique(hasProfile: bool, pathname: string)
    ensures var items := Items(hasProfile);
            forall i, j :: 0 <= i < |items| && 0 <= j < |items| && items[i].Link? && items[j].Link? ==>
              (IsActive(items[i].to, items[j].to) <==> i == j)
    ensures var items := Items(hasProfile);
            forall i, j :: 0 <= i < j < |items| && items[i].Link? && items[j].Link? && IsActive(pathname, items[i].to) ==>
              !IsActive(pathname, items[j].to)
  {
  }

  /** `localStorage.getItem("hasProfile") === "true"`. */
  function ProfileFlag(stored: Option<string>): (b: bool)
    ensures b <==> stored == Some("true")
  {
    match stored
    case Some(s) => s == "true"
    case None => false
  }

  class SidebarState {
    var hasProfile: bool
    var showSidebar: bool

    constructor ()
      ensures !hasProfile && !showSidebar
    {
      hasProfile := false;
      showSidebar := false;
    }

    /** The mount effect. */
    method Mount(store: SessionStore)
      modifies this
      ensures hasProfile <==> store.GetItem(HasProfileKey) == Some("true")
      ensures showSidebar == old(showSidebar)
    {
      var stored := store.GetItem(HasProfileKey);
      hasProfile := ProfileFlag(stored);
    }

    /** The menu icon toggles the sidebar on small screens. */
    method ToggleMenu()
      modifies this
      ensures showSidebar == !old(showSidebar) && hasProfile == old(hasProfile)
    {
      showSidebar := !showSidebar;
    }

    /** Following a link closes the sidebar. */
    method ClickLink()
      modifies this
      ensures !showSidebar && hasProfile == old(hasProfile)
    {
      showSidebar := false;
    }

    /** What the sidebar shows for the current flag. */
    function Rendered(): (items: seq<Item>)
      reads this
      ensures |items| >= 2 && items[0] == Logo && items[|items| - 1] == LogoutButton
      ensures (exists it :: it in items && it.Link?) <==> hasProfile
      ensures hasProfile ==> forall l :: l in Links ==> l in items
    {
      assert hasProfile ==> Links[0] in Items(hasProfile);
      Items(hasProfile)
    }
  }

  /** Logout: the five keys are removed one by one before the request is sent,
      and the page goes to "/login" whether the request succeeds or fails. */
  method HandleLogout(store: SessionStore, requestOk: bool) returns (effects: seq<Effect>)
    modifies store
    ensures store.items == old(store.items) - SessionKeys
    ensures effects == [Send(GET, "/user/logout"), Assign("/login")]
  {
    store.RemoveItem(HasProfileKey);
    store.RemoveItem(AuthTokenKey);
    store.RemoveItem(UserIdKey);
    store.RemoveItem(EmailKey);
    store.RemoveItem(RoleKey);
    effects := [Send(GET, "/user/logout")];
    if requestOk {
      effects := effects + [Assign("/login")];
    } else {
      effects := effects + [Assign("/login")];
    }
  }
}
