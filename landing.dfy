/** The landing page: the automatic redirect of a signed-in user and the
    Google sign-in address. */
module Landing {
  import opened Text
  import opened Js

  /** The effect's target, if any. */
  function AutoRedirect(loading: bool, user: Value): (r: Option<string>)
    ensures loading || !Truthy(user) ==> r.None?
    ensures !loading && Truthy(user) && Truthy(Prop(user, "needsOnboarding")) ==> r == Some("/onboarding")
    ensures r.Some? && r.value != "/onboarding" ==>
      !Truthy(Prop(user, "needsOnboarding")) && Prop(user, "role").Str? && r.value == "/dashboard/" + Prop(user, "role").s
    ensures !loading && Truthy(user) && !Truthy(Prop(user, "needsOnboarding")) ==>
      (r.Some? <==> Prop(user, "role") in {Str("mentor"), Str("mentee"), Str("admin")})
  {
    if loading || !Truthy(user) then None
    else if Truthy(Prop(user, "needsOnboarding")) then Some("/onboarding")
    else if Prop(user, "role") == Str("mentor") then Some("/dashboard/mentor")
    else if Prop(user, "role") == Str("mentee") then Some("/dashboard/mentee")
    else if Prop(user, "role") == Str("admin") then Some("/dashboard/admin")
    else None
  }

  /** `import.meta.env.VITE_API_BASE || "http://localhost:4000/api"` */
  function ApiBase(env: string): (r: string)
    ensures env != "" ==> r == env
    ensures r != ""
  {
    if env == "" then "http://localhost:4000/api" else env
  }

  const GooglePath := "/auth/google?role="

  /** The address the Google button opens. */
  function GoogleUrl(api: string, role: string): (r: string)
    ensures |r| == |api| + |GooglePath| + |role|
    ensures r[..|api| + |GooglePath|] == api + GooglePath
    ensures r[|api| + |GooglePath|..] == role
  {
    api + GooglePath + role
  }

  /** The chosen role can be read back from the address: different roles
      give different addresses. */
  lemma GoogleUrlCarriesRole(api: string, r1: string, r2: string)
    requires GoogleUrl(api, r1) == GoogleUrl(api, r2)
    ensures r1 == r2
  {
    assert r1 == GoogleUrl(api, r1)[|api| + |GooglePath|..];
  }
}
