/** The sign-in and sign-up page: the bounce of a user who is already
    signed in, the request payload, the user stored in the session context,
    and the routing after a successful response. */
module LoginPage {
  import opened Js
  import Landing

  /** The bounce effect's target, if any. It waits while the session loads
      and while a submission is in flight. */
  function Bounce(loading: bool, busy: bool, user: Value): (r: Option<string>)
    ensures loading || busy || !Truthy(user) ==> r.None?
    ensures !loading && !busy && Truthy(user) && Truthy(Prop(user, "needsOnboarding")) ==> r == Some("/onboarding")
    ensures r.Some? && r.value != "/onboarding" ==>
      !Truthy(Prop(user, "needsOnboarding")) && (Prop(user, "role") == Str("mentor") || Prop(user, "role") == Str("mentee"))
  {
    if loading || busy || !Truthy(user) then None
    else if Truthy(Prop(user, "needsOnboarding")) then Some("/onboarding")
    else if Prop(user, "role") == Str("mentor") then Some("/dashboard/mentor")
    else if Prop(user, "role") == Str("mentee") then Some("/dashboard/mentee")
    else None
  }

  /** The bounce agrees with the landing page's redirect, except that an
      admin is left on the login page. */
  lemma BounceAgreesWithLanding(user: Value)
    ensures Prop(user, "role") != Str("admin") ==> Bounce(false, false, user) == Landing.AutoRedirect(false, user)
    ensures Truthy(user) && !Truthy(Prop(user, "needsOnboarding")) && Prop(user, "role") == Str("admin") ==>
      Bounce(false, false, user).None? && Landing.AutoRedirect(false, user) == Some("/dashboard/admin")
  {
  }

  datatype Form = Form(name: string, email: string, password: string)

  datatype Payload =
    | SignupPayload(name: string, email: string, password: string, role: string)
    | LoginPayload(email: string, password: string)

  /** The endpoint and the body of the request; only sign-up sends a name
      and a role. */
  function Endpoint(mode: string): (r: string)
    ensures r == "signup" <==> mode == "signup"
    ensures r == "signup" || r == "login"
  {
    if mode == "signup" then "signup" else "login"
  }

  function PayloadOf(mode: string, form: Form, role: string): (r: Payload)
    ensures r.SignupPayload? <==> mode == "signup"
    ensures r.email == form.email && r.password == form.password
    ensures r.SignupPayload? ==> r.name == form.name && r.role == role
  {
    if mode == "signup" then SignupPayload(form.name, form.email, form.password, role)
    else LoginPayload(form.email, form.password)
  }

  /** `{ ...v }` of an object; other values are not spread here. */
  function Spread(v: Value): map<string, Value>
  {
    if v.Obj? then v.fields else map[]
  }

  /** The user stored in the context: the response's user with its
      onboarding flag set from `data.needsOnboarding === true`. */
  function ContextUser(data: Value): (r: Option<Value>)
    ensures r.Some? <==> Truthy(Prop(data, "user"))
    ensures r.Some? ==> r.value.Obj? && "needsOnboarding" in r.value.fields
    ensures r.Some? ==> (r.value.fields["needsOnboarding"] == Bool(true) <==> Prop(data, "needsOnboarding") == Bool(true))
    ensures r.Some? ==> r.value.fields["needsOnboarding"].Bool?
    ensures r.Some? ==> forall k :: k != "needsOnboarding" ==>
      (k in r.value.fields <==> k in Spread(Prop(data, "user")))
      && (k in r.value.fields ==> r.value.fields[k] == Spread(Prop(data, "user"))[k])
  {
    var u := Prop(data, "user");
    if !Truthy(u) then None
    else Some(Obj(Spread(u)["needsOnboarding" := Bool(Prop(data, "needsOnboarding") == Bool(true))]))
  }

  /** `data?.needsOnboarding ?? data?.user?.needsOnboarding ?? false` */
  function NeedsOnboarding(data: Value): Value
  {
    Coalesce(Coalesce(Prop(data, "needsOnboarding"), Prop(Prop(data, "user"), "needsOnboarding")), Bool(false))
  }

  /** An explicit top-level `false` hides a nested `true`. */
  lemma TopLevelFlagWins(user: map<string, Value>)
    ensures !Truthy(NeedsOnboarding(Obj(map["needsOnboarding" := Bool(false), "user" := Obj(user)])))
  {
  }

  /** `data?.user?.role ?? refreshed?.role ?? refreshed?.user?.role ?? user?.role` */
  function RoleNow(data: Value, refreshed: Value, ctxUser: Value): Value
  {
    Coalesce(Coalesce(Coalesce(Prop(Prop(data, "user"), "role"), Prop(refreshed, "role")),
      Prop(Prop(refreshed, "user"), "role")), Prop(ctxUser, "role"))
  }

  /** Where a successful response leads, given the session value the
      refresh yields and the context user seen when the form was submitted:
      the server's redirect, then onboarding, then the dashboard of the role,
      and onboarding for any other role. */
  function PostLogin(data: Value, refreshed: Value, ctxUser: Value): (r: Value)
    ensures Truthy(Prop(data, "redirect")) ==> r == Prop(data, "redirect")
    ensures !Truthy(Prop(data, "redirect")) && Truthy(NeedsOnboarding(data)) ==> r == Str("/onboarding")
    ensures !Truthy(Prop(data, "redirect")) ==>
      r in {Str("/onboarding"), Str("/dashboard/mentor"), Str("/dashboard/mentee")}
    ensures !Truthy(Prop(data, "redirect")) && r == Str("/dashboard/mentor") ==>
      !Truthy(NeedsOnboarding(data)) && RoleNow(data, refreshed, ctxUser) == Str("mentor")
    ensures !Truthy(Prop(data, "redirect")) && r == Str("/dashboard/mentee") ==>
      !Truthy(NeedsOnboarding(data)) && RoleNow(data, refreshed, ctxUser) == Str("mentee")
    ensures !Truthy(Prop(data, "redirect"))
      && (Truthy(Prop(refreshed, "needsOnboarding")) || Truthy(Prop(Prop(refreshed, "user"), "needsOnboarding")))
      ==> r == Str("/onboarding")
    ensures (!Truthy(Prop(data, "redirect")) && !Truthy(NeedsOnboarding(data))
      && !Truthy(Prop(refreshed, "needsOnboarding")) && !Truthy(Prop(Prop(refreshed, "user"), "needsOnboarding")))
      ==> && (RoleNow(data, refreshed, ctxUser) == Str("mentor") ==> r == Str("/dashboard/mentor"))
          && (RoleNow(data, refreshed, ctxUser) == Str("mentee") ==> r == Str("/dashboard/mentee"))
          && (RoleNow(data, refreshed, ctxUser) !in {Str("mentor"), Str("mentee")} ==> r == Str("/onboarding"))
  {
    var ru := Coalesce(refreshed, Null);
    if Truthy(Prop(data, "redirect")) then Prop(data, "redirect")
    else if Truthy(NeedsOnboarding(data)) then Str("/onboarding")
    else if Truthy(Prop(ru, "needsOnboarding")) || Truthy(Prop(Prop(ru, "user"), "needsOnboarding")) then Str("/onboarding")
    else if RoleNow(data, ru, ctxUser) == Str("mentor") then Str("/dashboard/mentor")
    else if RoleNow(data, ru, ctxUser) == Str("mentee") then Str("/dashboard/mentee")
    else Str("/onboarding")
  }

  /** The routing as written. The context's `refresh` resolves to
      `undefined`, so the refreshed session is never consulted. */
  function PostLoginAsWritten(data: Value, ctxUser: Value): Value
  {
    PostLogin(data, Undefined, ctxUser)
  }

  /** A response that carries no user, for a signed-in mentor whose session
      the refresh would return, sends the mentor to onboarding instead of
      their dashboard. */
  lemma RefreshResultIgnored()
    ensures PostLoginAsWritten(Obj(map[]), Null) == Str("/onboarding")
    ensures PostLogin(Obj(map[]), Obj(map["role" := Str("mentor")]), Null) == Str("/dashboard/mentor")
  {
    var refreshed := Obj(map["role" := Str("mentor")]);
    assert RoleNow(Obj(map[]), refreshed, Null) == Str("mentor");
  }

  /** A response that names the role is routed by it, refreshed or not. */
  lemma ResponseRoleDecides(data: Value, refreshed: Value, ctxUser: Value)
    requires !Truthy(Prop(data, "redirect")) && !Truthy(NeedsOnboarding(data))
    requires Prop(Prop(data, "user"), "role") == Str("mentor")
    requires !Truthy(Prop(refreshed, "needsOnboarding")) && !Truthy(Prop(Prop(refreshed, "user"), "needsOnboarding"))
    ensures PostLogin(data, refreshed, ctxUser) == Str("/dashboard/mentor")
    ensures PostLoginAsWritten(data, ctxUser) == Str("/dashboard/mentor")
  {
  }

  /** How the request ended. */
  datatype Response = Answered(data: Value) | Failed(err: Value)

  const DefaultError := "Something went wrong"

  /** The form's state. */
  class LoginForm {
    var mode: string
    var role: string
    var form: Form
    var error: Value
    var busy: bool

    constructor()
      ensures mode == "login" && role == "mentee" && form == Form("", "", "")
      ensures error == Str("") && !busy
    {
      mode := "login";
      role := "mentee";
      form := Form("", "", "");
      error := Str("");
      busy := false;
    }

    /** `onSubmit`: the request is built from the mode; an answer updates
        the context user and leads to `PostLogin`; a failure shows the
        server's message or the default text. `busy` is cleared either way.
        Passing `Undefined` as `refreshed` gives the code as written. */
    method OnSubmit(ctxUser: Value, response: Response, refreshed: Value)
      returns (endpoint: string, payload: Payload, setUser: Option<Value>, target: Option<Value>)
      modifies this
      ensures endpoint == Endpoint(mode) && payload == PayloadOf(mode, form, role)
      ensures !busy
      ensures response.Answered? ==>
        setUser == ContextUser(response.data) && target == Some(PostLogin(response.data, refreshed, ctxUser)) && error == Str("")
      ensures response.Failed? ==> setUser.None? && target.None? && error == ErrorText(response.err, DefaultError)
      ensures mode == old(mode) && role == old(role) && form == old(form)
    {
      error := Str("");
      busy := true;
      endpoint := Endpoint(mode);
      payload := PayloadOf(mode, form, role);
      if response.Answered? {
        setUser := ContextUser(response.data);
        target := Some(PostLogin(response.data, refreshed, ctxUser));
      } else {
        setUser := None;
        target := None;
        error := ErrorText(response.err, DefaultError);
      }
      busy := false;
    }
  }
}
