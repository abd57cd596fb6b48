/** The browser's localStorage as the client uses it: a string-to-string store
    that login writes, logout clears and the route guard reads. */
module Session {
  import opened Js

  const HasProfileKey := "hasProfile"
  const AuthTokenKey := "authToken"
  const RoleKey := "role"
  const UserIdKey := "userId"
  const EmailKey := "email"

  /** The five keys that a logout removes. */
  const SessionKeys: set<string> := {HasProfileKey, AuthTokenKey, UserIdKey, EmailKey, RoleKey}

  /** `getItem(k)`: `null` (here None) for a key that was never set. */
  function Get(items: map<string, string>, k: string): (r: Option<string>)
    ensures r.Some? <==> k in items
    ensures r.Some? ==> r.value == items[k]
  {
    if k in items then Some(items[k]) else None
  }

  class SessionStore {
    var items: map<string, string>

    constructor (initial: map<string, string>)
      ensures items == initial
    {
      items := initial;
    }

    /** A value exactly for a stored key, and then the stored value. */
    function GetItem(k: string): (r: Option<string>)
      reads this
      ensures r.Some? <==> k in items
      ensures r.Some? ==> r.value == items[k]
    {
      Get(items, k)
    }

    method SetItem(k: string, v: string)
      modifies this
      ensures items == old(items)[k := v]
    {
      items := items[k := v];
    }

    method RemoveItem(k: string)
      modifies this
      ensures items == old(items) - {k}
    {
      items := items - {k};
    }
  }
}
