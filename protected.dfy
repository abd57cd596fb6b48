/** The route guard of client/src/Protected.js. Its effect runs two checks over
    the session store, login first, and neither returns: a session that fails
    both is sent to "/login" and then to "/unauthorized". The guarded subtree
    (the Outlet) is rendered in every case. */
module Protected {
  import opened Js
  import opened Session

  /** The roles the routing table mounts the guard with, one per subtree. */
  const GuardedRoles: seq<string> := ["jobseeker", "admin", "employer"]

  /** `if (!authToken)` fails for a missing token and for the empty string. */
  predicate Authenticated(items: map<string, string>)
  {
    AuthTokenKey in items && items[AuthTokenKey] != ""
  }

  /** `userRole !== role`, with `getItem` giving null for a missing role. */
  predicate RoleMatches(items: map<string, string>, role: string)
  {
    Get(items, RoleKey) == Some(role)
  }

  /** The navigations issued by one run of the guard's effect, in order. */
  function Navigations(items: map<string, string>, role: string): (navs: seq<string>)
    ensures |navs| <= 2
    ensures !Authenticated(items) <==> (navs != [] && navs[0] == "/login")
    ensures !RoleMatches(items, role) <==> (navs != [] && navs[|navs| - 1] == "/unauthorized")
    ensures |navs| == 2 <==> !Authenticated(items) && !RoleMatches(items, role)
    ensures navs == [] <==> Authenticated(items) && RoleMatches(items, role)
  {
    var toLogin := if Authenticated(items) then [] else ["/login"];
    var toUnauthorized := if RoleMatches(items, role) then [] else ["/unauthorized"];
    toLogin + toUnauthorized
  }

  /** The guard reads the store and never writes it: this method has no
      modifies clause. */
  method RunGuard(store: SessionStore, role: string) returns (navs: seq<string>)
    ensures navs == Navigations(store.items, role)
    ensures (store.GetItem(AuthTokenKey).None? || store.GetItem(AuthTokenKey) == Some(""))
              ==> navs[0] == "/login"
  {
    var authToken := store.GetItem(AuthTokenKey);
    navs := [];
    if authToken.None? || authToken.value == "" {
      navs := navs + ["/login"];
    }
    var userRole := store.GetItem(RoleKey);
    if userRole != Some(role) {
      navs := navs + ["/unauthorized"];
    }
  }

  /** Only the two keys the guard reads decide what it does. */
  lemma NavigationsReadTwoKeys(a: map<string, string>, b: map<string, string>, role: string)
    requires Get(a, AuthTokenKey) == Get(b, AuthTokenKey)
    requires Get(a, RoleKey) == Get(b, RoleKey)
    ensures Navigations(a, role) == Navigations(b, role)
  {
    assert Authenticated(a) == Authenticated(b);
  }

  datatype View = Spinner | Outlet

  /** `pageLoading` starts false and the file never sets it true; the callback
      that could is handed to an Outlet, which does not call it. */
  const InitialPageLoading := false

  function Render(pageLoading: bool): (v: View)
    ensures v == Outlet <==> !pageLoading
  {
    if pageLoading then Spinner else Outlet
  }
}
