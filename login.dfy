/** The submit handler of client/src/pages/forms/LogIn.jsx: on a 200 reply it
    writes three session keys, then leaves the page for a dashboard chosen by
    role and profile flag; on a failure it classifies the error. */
module LogIn {
  import opened Js
  import opened Session

  /** The fields of a successful reply that the handler reads. `profile` is the
      JSON flag; None stands for a reply without it (`undefined`). */
  datatype LoginReply = LoginReply(status: int, token: string, role: string, profile: Option<bool>)

  /** A rejected request: a response with a status, a request that got no
      response, or a request that could not be made. */
  datatype LoginError =
    | ErrorResponse(status: int, message: Option<string>, isVerified: Option<bool>)
    | NoResponse
    | RequestNotSent

  /** How the request settled: resolved with a reply, which axios does only
      for a 2xx status, or rejected. A reply with any other status arrives as
      `Rejected(ErrorResponse(...))`. */
  datatype LoginResult = Replied(reply: LoginReply) | Rejected(error: LoginError)

  datatype LoginOutcome =
    | Redirected(href: string)          // window.location.href after a 200
    | VerifyEmail(email: string)        // window.location.href to the verify page
    | ErrorToast(message: string)
    | NoAction                          // a 2xx reply other than 200

  /** `localStorage.setItem` stores `String(value)`. */
  function StoredFlag(profile: Option<bool>): (s: string)
    ensures s == "true" <==> profile == Some(true)
    ensures s != ""
  {
    match profile
    case Some(true) => "true"
    case Some(false) => "false"
    case None => "undefined"
  }

  /** The store after the three writes of a 200 reply, in source order. */
  function LoginWrites(items: map<string, string>, reply: LoginReply): (m: map<string, string>)
    ensures m.Keys == items.Keys + {HasProfileKey, AuthTokenKey, RoleKey}
    ensures m[AuthTokenKey] == reply.token && m[RoleKey] == reply.role
    ensures m[HasProfileKey] == StoredFlag(reply.profile)
    ensures forall k :: k in items && k !in {HasProfileKey, AuthTokenKey, RoleKey} ==> m[k] == items[k]
  {
    items[HasProfileKey := StoredFlag(reply.profile)][AuthTokenKey := reply.token][RoleKey := reply.role]
  }

  /** The role switch; `!hasProfile` tests the JSON flag, so a missing flag
      counts as no profile. */
  function RedirectFor(role: string, profile: Option<bool>): (href: string)
  {
    var hasProfile := profile == Some(true);
    match role
    case "admin" => "/admin"
    case "jobseeker" => if !hasProfile then "/dashboard/myapplication" else "/dashboard"
    case "employer" => if !hasProfile then "/employer-dashboard/create-profile" else "/employer-dashboard"
    case _ => "/default-dashboard"
  }

  /** The subtree the routing table guards for a role; a role other than the
      three has no guarded subtree ("/default-dashboard" is not routed). */
  function GuardedPrefix(role: string): Option<string>
  {
    match role
    case "admin" => Some("/admin")
    case "jobseeker" => Some("/dashboard")
    case "employer" => Some("/employer-dashboard")
    case _ => None
  }

  /** Every role's redirect lands inside the subtree guarded for that role, and
      only a profile-less jobseeker or employer is sent to the form that
      creates the profile. */
  lemma RedirectLandsInOwnSubtree(role: string, profile: Option<bool>)
    ensures GuardedPrefix(role).Some? <==> role in {"admin", "jobseeker", "employer"}
    ensures GuardedPrefix(role).Some? ==> GuardedPrefix(role).value <= RedirectFor(role, profile)
    ensures role == "admin" ==> RedirectFor(role, profile) == "/admin"
    ensures role == "jobseeker" ==>
              (RedirectFor(role, profile) == "/dashboard/myapplication" <==> profile != Some(true))
    ensures role == "employer" ==>
              (RedirectFor(role, profile) == "/employer-dashboard/create-profile" <==> profile != Some(true))
    ensures role !in {"admin", "jobseeker", "employer"} ==> RedirectFor(role, profile) == "/default-dashboard"
  {
  }

  /** The message of a failure that does not lead to the verify page. */
  function FailureMessage(error: LoginError): (message: string)
    ensures error.ErrorResponse? ==>
              message == if error.message.Some? && error.message.value != "" then error.message.value
                         else "Login failed"
    ensures error.NoResponse? ==> message == "No response received from the server"
    ensures error.RequestNotSent? ==> message == "An error occurred while processing your request"
  {
    match error
    case ErrorResponse(_, msg, _) =>
      if msg.Some? && msg.value != "" then msg.value else "Login failed"
    case NoResponse => "No response received from the server"
    case RequestNotSent => "An error occurred while processing your request"
  }

  /** A 401 whose body says `isVerified: false` exactly. */
  predicate NeedsVerification(error: LoginError)
  {
    error.ErrorResponse? && error.status == 401 && error.isVerified == Some(false)
  }

  /** The whole submit handler. The store changes only on a 200 reply, and then
      by exactly the three writes; userId and email are not written. */
  method HandleSubmit(store: SessionStore, email: string, result: LoginResult)
    returns (outcome: LoginOutcome)
    requires result.Replied? ==> Resolves(result.reply.status)
    modifies store
    ensures result.Replied? && result.reply.status == 200 ==>
              && store.items == LoginWrites(old(store.items), result.reply)
              && outcome == Redirected(RedirectFor(result.reply.role, result.reply.profile))
    ensures result.Replied? && result.reply.status != 200 ==>
              store.items == old(store.items) && outcome == NoAction
    ensures result.Rejected? ==> store.items == old(store.items)
    ensures result.Rejected? && NeedsVerification(result.error) ==> outcome == VerifyEmail(email)
    ensures result.Rejected? && !NeedsVerification(result.error) ==>
              outcome == ErrorToast(FailureMessage(result.error))
  {
    match result
    case Replied(reply) =>
      if reply.status == 200 {
        store.SetItem(HasProfileKey, StoredFlag(reply.profile));
        store.SetItem(AuthTokenKey, reply.token);
        store.SetItem(RoleKey, reply.role);
        outcome := Redirected(RedirectFor(reply.role, reply.profile));
      } else {
        outcome := NoAction;
      }
    case Rejected(error) =>
      if NeedsVerification(error) {
        outcome := VerifyEmail(email);
      } else {
        outcome := ErrorToast(FailureMessage(error));
      }
  }
}
