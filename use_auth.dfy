/**
 * The authentication hook: the user state that `checkAuth`, `logout` and
 * `updateProfile` update, and the redirect rule of the route guard built on
 * it. The profile lives in the 'users' collection under the account's id.
 */
module UseAuth {
  import opened Json
  import opened Remote

  const UsersCollection := "users"
  const LoginRoute := "/auth/login"
  const HomeRoute := "/"
  const CurrentSession := "current"
  const UserNotFound := "User not found"

  /**
   * `useAuthProtection`'s effect: no decision while loading; a guarded page
   * sends a signed-out visitor to the login page, a guest-only page sends a
   * signed-in user home, and nothing happens otherwise.
   */
  function ProtectionRedirect(loading: bool, requireAuth: bool, isAuthenticated: bool): (target: Option<string>)
    ensures loading ==> target.None?
    ensures target == Some(LoginRoute) <==> !loading && requireAuth && !isAuthenticated
    ensures target == Some(HomeRoute) <==> !loading && !requireAuth && isAuthenticated
    ensures target.None? <==> loading || requireAuth == isAuthenticated
  {
    if loading then None
    else if requireAuth && !isAuthenticated then Some(LoginRoute)
    else if !requireAuth && isAuthenticated then Some(HomeRoute)
    else None
  }

  /** `getUserProfile(id)`: the profile document of the account `id`. */
  function ProfileCall(env: Env, session: Doc): Call {
    GetDocument(EnvValue(env, DatabaseVar), UsersCollection, IdText(Get(session, "$id")))
  }

  /**
   * The requests inside `checkAuth`'s `try`: the current account, then its
   * profile. The user is the account overlaid by the profile, or null when
   * either request fails.
   */
  method FetchUser(env: Env, respond: Call -> Response) returns (calls: seq<Call>, user: Option<Doc>)
    ensures 1 <= |calls| <= 2 && calls[0] == GetAccount
    ensures respond(GetAccount).Rejected? ==> |calls| == 1 && user.None?
    ensures respond(GetAccount).Done? ==> |calls| == 2 && calls[1] == ProfileCall(env, respond(GetAccount).doc)
    ensures user.Some? <==> |calls| == 2 && respond(calls[0]).Done? && respond(calls[1]).Done?
    ensures user.Some? ==>
      var session, profile := respond(calls[0]).doc, respond(calls[1]).doc;
      && user.value.Keys == session.Keys + profile.Keys
      && (forall k :: k in profile ==> user.value[k] == profile[k])
      && (forall k :: k in session && k !in profile ==> user.value[k] == session[k])
  {
    match respond(GetAccount)
    case Rejected(_) =>
      calls, user := [GetAccount], None;
    case Done(session) =>
      var profileCall := ProfileCall(env, session);
      calls := [GetAccount, profileCall];
      match respond(profileCall)
      case Rejected(_) => user := None;
      case Done(profile) => user := Some(Spread(session, profile));
  }

  class AuthState {
    var user: Option<Doc>
    var loading: bool
    var error: Option<string>
    /** Where the router was sent, if anywhere. */
    var redirect: Option<string>
    /** Every backend request the hook has made, in order. */
    var requests: seq<Call>

    constructor ()
      ensures user.None? && loading && error.None? && redirect.None? && requests == []
    {
      user, loading, error, redirect, requests := None, true, None, None, [];
    }

    /** `isAuthenticated`: `!!user`. */
    predicate IsAuthenticated()
      reads this
    {
      user.Some?
    }

    /**
     * `checkAuth`: the account request, then (only when it is answered) the
     * request for that account's own profile; the user becomes the account
     * overlaid by the profile, null on any failure, and loading ends.
     */
    method CheckAuth(env: Env, respond: Call -> Response)
      modifies this`user, this`loading, this`requests
      ensures !loading
      ensures |requests| > |old(requests)| && requests[..|old(requests)|] == old(requests)
      ensures requests[|old(requests)|] == GetAccount
      ensures respond(GetAccount).Rejected? ==> requests == old(requests) + [GetAccount] && user.None?
      ensures respond(GetAccount).Done? ==>
        requests == old(requests) + [GetAccount, ProfileCall(env, respond(GetAccount).doc)]
      ensures user.Some? <==>
        |requests| == |old(requests)| + 2 && respond(GetAccount).Done? && respond(requests[|requests| - 1]).Done?
      ensures user.Some? ==>
        user.value == Spread(respond(GetAccount).doc, respond(requests[|requests| - 1]).doc)
    {
      var trace, fetched := FetchUser(env, respond);
      var all := requests + trace;
      assert all[..|requests|] == requests;
      assert all[|requests|] == trace[0];
      assert |trace| == 2 ==> all[|all| - 1] == trace[1];
      assert respond(GetAccount).Rejected? ==> trace == [GetAccount];
      assert respond(GetAccount).Done? ==> trace == [GetAccount, ProfileCall(env, respond(GetAccount).doc)];
      requests, user, loading := all, fetched, false;
    }

    /**
     * `logout`: the current session is deleted; only when that succeeds is
     * the user cleared and the login page opened. A failure is recorded and
     * rethrown with the user left signed in.
     */
    method Logout(env: Env, respond: Call -> Response) returns (failure: Option<string>)
      modifies this`user, this`error, this`redirect, this`requests
      ensures requests == old(requests) + [DeleteSession(CurrentSession)]
      ensures respond(DeleteSession(CurrentSession)).Done? ==>
        user.None? && redirect == Some(LoginRoute) && error == old(error) && failure.None?
      ensures respond(DeleteSession(CurrentSession)).Rejected? ==>
        var message := respond(DeleteSession(CurrentSession)).message;
        user == old(user) && redirect == old(redirect) && error == Some(message) && failure == Some(message)
    {
      requests := requests + [DeleteSession(CurrentSession)];
      match respond(DeleteSession(CurrentSession))
      case Done(_) =>
        user, redirect, failure := None, Some(LoginRoute), None;
      case Rejected(message) =>
        error, failure := Some(message), Some(message);
    }

    /**
     * `updateProfile(userData)`: without a signed-in user id it fails with
     * 'User not found' and sends nothing; otherwise the profile update is
     * sent and its answer is merged over the user.
     */
    method UpdateProfile(env: Env, respond: Call -> Response, userData: Doc) returns (r: Result<Doc>)
      modifies this`user, this`error, this`requests
      ensures old(user).None? || IdText(Get(old(user).value, "$id")) == "" ==>
        requests == old(requests) && user == old(user) && error == Some(UserNotFound) && r == Failure(UserNotFound)
      ensures old(user).Some? && IdText(Get(old(user).value, "$id")) != "" ==>
        var c := UpdateDocument(EnvValue(env, DatabaseVar), UsersCollection, IdText(Get(old(user).value, "$id")), userData);
        && requests == old(requests) + [c]
        && (respond(c).Done? ==>
              user == Some(Spread(old(user).value, respond(c).doc)) && error.None? && r == Success(respond(c).doc))
        && (respond(c).Rejected? ==>
              user == old(user) && error == Some(respond(c).message) && r == Failure(respond(c).message))
    {
      if user.None? || IdText(Get(user.value, "$id")) == "" {
        error, r := Some(UserNotFound), Failure(UserNotFound);
        return;
      }
      var c := UpdateDocument(EnvValue(env, DatabaseVar), UsersCollection, IdText(Get(user.value, "$id")), userData);
      requests := requests + [c];
      match respond(c)
      case Done(updated) =>
        user, error, r := Some(Spread(user.value, updated)), None, Success(updated);
      case Rejected(message) =>
        error, r := Some(message), Failure(message);
    }
  }
}
