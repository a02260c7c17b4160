/** The `RequireAuth` wrapper: while the session loads it shows a checking
    message; afterwards it renders its children and, from an effect, sends a
    guest to the login page, a user who still has to onboard to the
    onboarding page, and a user outside the allowed roles to their own
    dashboard. */
module RequireAuth {
  import opened Js

  /** A navigation the effect performs (always replacing the history entry);
      `fromPath` is the state passed to the login page. */
  datatype Nav = Stay | Go(to: string, fromPath: Option<string>)

  /** `allowedRoles && allowedRoles.length`: a non-empty list was passed. */
  predicate RoleGated(allowedRoles: Option<seq<Value>>)
  {
    allowedRoles.Some? && |allowedRoles.value| > 0
  }

  /** The dashboard a user is sent to when the route is not for their role. */
  function OwnDashboard(role: Value): (r: string)
    ensures role == Str("mentor") <==> r == "/dashboard/mentor"
    ensures role != Str("mentor") <==> r == "/dashboard/mentee"
  {
    if role == Str("mentor") then "/dashboard/mentor" else "/dashboard/mentee"
  }

  /** The effect's decision, in the order the checks are made. */
  function Decide(loading: bool, user: Value, path: string, allowedRoles: Option<seq<Value>>): (r: Nav)
    ensures loading ==> r == Stay
    ensures !loading && !Truthy(user) ==> r == Go("/login", Some(path))
    ensures r.Go? && r.to == "/login" <==> !loading && !Truthy(user)
    ensures r.Go? && r.to == "/onboarding" <==>
      !loading && Truthy(user) && Truthy(Prop(user, "needsOnboarding")) && path != "/onboarding"
    ensures r.Go? && r.fromPath.None? ==> !loading && Truthy(user)
    ensures !RoleGated(allowedRoles) ==> r == Stay || r.to == "/login" || r.to == "/onboarding"
    ensures r.Go? && r.to != "/login" && r.to != "/onboarding" <==>
      && !loading && Truthy(user)
      && !(Truthy(Prop(user, "needsOnboarding")) && path != "/onboarding")
      && RoleGated(allowedRoles) && Prop(user, "role") !in allowedRoles.value
    ensures r.Go? && r.to != "/login" && r.to != "/onboarding" ==> r.to == OwnDashboard(Prop(user, "role"))
  {
    if loading then Stay
    else if !Truthy(user) then Go("/login", Some(path))
    else if Truthy(Prop(user, "needsOnboarding")) && path != "/onboarding" then Go("/onboarding", None)
    else if RoleGated(allowedRoles) && Prop(user, "role") !in allowedRoles.value then
      Go(OwnDashboard(Prop(user, "role")), None)
    else Stay
  }

  /** Signing in outranks onboarding, and onboarding outranks the role
      check, whatever the other inputs. */
  lemma Precedence(user: Value, path: string, allowedRoles: Option<seq<Value>>)
    ensures !Truthy(user) ==> Decide(false, user, path, allowedRoles) == Go("/login", Some(path))
    ensures Truthy(user) && Truthy(Prop(user, "needsOnboarding")) && path != "/onboarding" ==>
      Decide(false, user, path, allowedRoles) == Go("/onboarding", None)
  {
  }

  /** A user of an allowed role who has onboarded is never moved. */
  lemma AllowedUserStays(user: Value, path: string, allowedRoles: Option<seq<Value>>)
    requires Truthy(user) && !Truthy(Prop(user, "needsOnboarding"))
    requires allowedRoles.Some? ==> Prop(user, "role") in allowedRoles.value
    ensures Decide(false, user, path, allowedRoles) == Stay
  {
  }

  /** What is drawn: the checking message while loading, else the children
      (even while the effect navigates away). */
  datatype Drawn = Checking | Children

  function Render(loading: bool): (r: Drawn)
    ensures r == Children <==> !loading
  {
    if loading then Checking else Children
  }
}
