/**
 * The admin gate: once the user state has loaded, a signed-out visitor goes
 * to the admin login page and a signed-in user whose profile role is not
 * 'admin' goes home.
 */
module UseAdminAuth {
  import opened Json
  import opened Remote
  import UseAuth

  const AdminLoginRoute := "/admin/login"
  const HomeRoute := "/"
  const AdminRole := "admin"

  /** The gate's decision from the loading flag, the user's presence and the admin check. */
  function AdminRedirect(loading: bool, hasUser: bool, isAdmin: bool): (target: Option<string>)
    ensures loading ==> target.None?
    ensures target == Some(AdminLoginRoute) <==> !loading && !hasUser
    ensures target == Some(HomeRoute) <==> !loading && hasUser && !isAdmin
    ensures target.None? <==> loading || (hasUser && isAdmin)
  {
    if loading then None
    else if !hasUser then Some(AdminLoginRoute)
    else if !isAdmin then Some(HomeRoute)
    else None
  }

  /** `authService.isAdmin(userId)`: the profile's role is 'admin'; a failed read counts as not an admin. */
  method IsAdmin(env: Env, respond: Call -> Response, userId: string) returns (calls: seq<Call>, isAdmin: bool)
    ensures calls == [GetDocument(EnvValue(env, DatabaseVar), UseAuth.UsersCollection, userId)]
    ensures isAdmin <==> respond(calls[0]).Done? && Get(respond(calls[0]).doc, "role") == Str(AdminRole)
  {
    var c := GetDocument(EnvValue(env, DatabaseVar), UseAuth.UsersCollection, userId);
    calls := [c];
    match respond(c)
    case Done(profile) => isAdmin := Get(profile, "role") == Str(AdminRole);
    case Rejected(_) => isAdmin := false;
  }

  /**
   * `checkAdminStatus`: nothing while loading; with no user, the admin
   * login page without asking the backend; otherwise the admin check
   * decides between staying and going home.
   */
  method CheckAdminStatus(env: Env, respond: Call -> Response, loading: bool, user: Option<Doc>)
    returns (calls: seq<Call>, target: Option<string>)
    ensures loading ==> calls == [] && target.None?
    ensures !loading && user.None? ==> calls == [] && target == Some(AdminLoginRoute)
    ensures !loading && user.Some? ==>
      var c := GetDocument(EnvValue(env, DatabaseVar), UseAuth.UsersCollection, IdText(Get(user.value, "$id")));
      var admin := respond(c).Done? && Get(respond(c).doc, "role") == Str(AdminRole);
      && calls == [c]
      && target == AdminRedirect(false, true, admin)
      && (target.None? <==> admin)
  {
    if loading {
      calls, target := [], None;
      return;
    }
    if user.None? {
      calls, target := [], Some(AdminLoginRoute);
      return;
    }
    var isAdmin;
    calls, isAdmin := IsAdmin(env, respond, IdText(Get(user.value, "$id")));
    target := if isAdmin then None else Some(HomeRoute);
  }
}
