/** How the pages that share the session store fit together: what login writes
    is what the route guard, the sidebar and the resume page later read, and
    what logout removes makes the guard turn the user away. */
module SessionFlows {
  import opened Js
  import opened Session
  import LogIn
  import Protected
  import Sidebar
  import MyApplication

  /** After a successful login with a non-empty token, the guard of the
      subtree the user is sent to lets them through without a navigation,
      and the redirect lies inside that subtree. */
  lemma LoginThenGuard(items: map<string, string>, reply: LogIn.LoginReply)
    requires reply.token != ""
    ensures Protected.Navigations(LogIn.LoginWrites(items, reply), reply.role) == []
    ensures LogIn.GuardedPrefix(reply.role).Some? ==>
              LogIn.GuardedPrefix(reply.role).value <= LogIn.RedirectFor(reply.role, reply.profile)
  {
    var m := LogIn.LoginWrites(items, reply);
    assert Protected.Authenticated(m);
    assert Protected.RoleMatches(m, reply.role);
    LogIn.RedirectLandsInOwnSubtree(reply.role, reply.profile);
  }

  /** A login with an empty token still writes it, and the guard then sends
      the user back to "/login" first. */
  lemma EmptyTokenLoginIsTurnedAway(items: map<string, string>, reply: LogIn.LoginReply)
    requires reply.token == ""
    ensures Protected.Navigations(LogIn.LoginWrites(items, reply), reply.role) == ["/login"]
  {
    var m := LogIn.LoginWrites(items, reply);
    assert !Protected.Authenticated(m);
    assert Protected.RoleMatches(m, reply.role);
  }

  /** After logout, every guarded subtree sends the user to "/login" and then
      to "/unauthorized", whatever the store held before. */
  lemma LogoutThenGuard(items: map<string, string>, role: string)
    ensures Protected.Navigations(items - SessionKeys, role) == ["/login", "/unauthorized"]
  {
    var m := items - SessionKeys;
    assert AuthTokenKey !in m && RoleKey !in m;
    assert !Protected.Authenticated(m);
    assert !Protected.RoleMatches(m, role);
  }

  /** The sidebar shows its links after a login exactly when the reply's
      profile flag was true. */
  lemma LoginThenSidebar(items: map<string, string>, reply: LogIn.LoginReply)
    ensures Sidebar.ProfileFlag(Get(LogIn.LoginWrites(items, reply), HasProfileKey)) <==> reply.profile == Some(true)
  {
    var m := LogIn.LoginWrites(items, reply);
    assert Get(m, HasProfileKey) == Some(LogIn.StoredFlag(reply.profile));
  }

  /** The resume page tests the stored flag for truthiness, and every flag a
      login stores ("true", "false" or "undefined") is a non-empty string: a
      job seeker who logged in without a profile and creates one is sent to
      the update route (PUT), not the create route. */
  lemma LoginThenResumeSave(items: map<string, string>, reply: LogIn.LoginReply)
    ensures MyApplication.SaveRequest(Get(LogIn.LoginWrites(items, reply), HasProfileKey)).verb == PUT
    ensures reply.profile != Some(true) ==>
              !Sidebar.ProfileFlag(Get(LogIn.LoginWrites(items, reply), HasProfileKey))
  {
    var m := LogIn.LoginWrites(items, reply);
    assert Get(m, HasProfileKey) == Some(LogIn.StoredFlag(reply.profile));
  }
}
