/** The stand-alone `ProtectedRoute` component: a chain of guards before the
    children are drawn. */
module ProtectedRoute {
  import opened Js

  /** `Throws` is the `TypeError` raised when `allowedRoles` was not passed. */
  datatype Outcome = CheckingSession | ToHome | Children | Throws

  function Guard(loading: bool, user: Value, allowedRoles: Option<seq<Value>>): (r: Outcome)
    ensures loading <==> r == CheckingSession
    ensures !loading && !Truthy(user) ==> r == ToHome
    ensures r == Children <==>
      !loading && Truthy(user) && allowedRoles.Some? && Prop(user, "role") in allowedRoles.value
    ensures r == Throws <==> !loading && Truthy(user) && allowedRoles.None?
  {
    if loading then CheckingSession
    else if !Truthy(user) then ToHome
    else if allowedRoles.None? then Throws
    else if Prop(user, "role") !in allowedRoles.value then ToHome
    else Children
  }

  /** An empty list admits nobody: every signed-in user is sent home. */
  lemma EmptyRolesAdmitNobody(user: Value)
    requires Truthy(user)
    ensures Guard(false, user, Some([])) == ToHome
  {
  }
}
