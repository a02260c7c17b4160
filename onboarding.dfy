/** The onboarding form: the role prefilled from the session, field edits,
    the fields shown for each role, and the redirect after saving. */
module Onboarding {
  import opened Js
  import Profile

  type Form = map<string, string>

  const FieldNames := ["name", "bio", "expertise", "skills", "interests", "goals", "role"]

  function InitialForm(): (r: Form)
    ensures forall k :: k in r <==> k in FieldNames
    ensures r["role"] == "mentee"
  {
    map["name" := "", "bio" := "", "expertise" := "", "skills" := "",
        "interests" := "", "goals" := "", "role" := "mentee"]
  }

  /** The role select decides which extra fields are drawn. */
  function VisibleFields(form: Form): (r: seq<string>)
    requires "role" in form
    ensures "skills" in r <==> form["role"] == "mentor"
    ensures "goals" in r <==> form["role"] != "mentor"
  {
    ["role", "name", "bio"] + (if form["role"] == "mentor" then ["expertise", "skills"] else ["interests", "goals"])
  }

  /** `{ ...formData, role: formData.role }`: the whole form is sent. */
  function PayloadOf(form: Form): (r: Form)
    requires "role" in form
    ensures forall k :: k in r <==> k in form
    ensures forall k :: k in r ==> r[k] == form[k]
  {
    form["role" := form["role"]]
  }

  /** Fields hidden by the role select are still sent with what was typed
      into them before the role changed. */
  lemma HiddenFieldsAreSent(skills: string)
    ensures "skills" !in VisibleFields(InitialForm()["skills" := skills])
    ensures PayloadOf(InitialForm()["skills" := skills])["skills"] == skills
  {
  }

  /** Where the page goes after saving: the mentor dashboard for a mentor,
      the mentee dashboard for every other role. */
  function PostSubmitTarget(me: Value): (r: string)
    ensures r == "/dashboard/mentor" <==> Prop(me, "role") == Str("mentor")
    ensures r == "/dashboard/mentor" || r == "/dashboard/mentee"
  {
    if Profile.ValidRole(Prop(me, "role")) == "mentor" then "/dashboard/mentor" else "/dashboard/mentee"
  }

  datatype Screen = Loading | PleaseLogIn | FormShown

  function ScreenOf(loading: bool, user: Value): (r: Screen)
    ensures r == FormShown <==> !loading && Truthy(user)
  {
    if loading then Loading else if !Truthy(user) then PleaseLogIn else FormShown
  }

  /** How saving ended: the post failed, the reload of the session failed,
      or both succeeded with the reloaded session. */
  datatype SaveOutcome = PostFailed(err: Value) | ReloadFailed(err: Value) | Saved(me: Value)

  const DefaultError := "Failed to save profile. Try again."

  class OnboardingForm {
    var user: Value
    var formData: Form
    var loading: bool
    var saving: bool
    var error: Value

    predicate Valid()
      reads this
    {
      forall k :: k in FieldNames ==> k in formData
    }

    constructor()
      ensures Valid() && formData == InitialForm()
      ensures user == Null && loading && !saving && error == Str("")
    {
      user := Null;
      formData := InitialForm();
      loading := true;
      saving := false;
      error := Str("");
    }

    /** The session arrived (`Some`) or its request failed (`None`); the
        role is prefilled with `validRole` of the session's role. */
    method Loaded(me: Option<Value>)
      requires Valid()
      modifies this
      ensures Valid() && !loading
      ensures me.None? ==> user == Null && formData == old(formData)
      ensures me.Some? ==> user == me.value && formData == old(formData)["role" := Profile.ValidRole(Prop(me.value, "role"))]
      ensures saving == old(saving) && error == old(error)
    {
      if me.Some? {
        user := me.value;
        formData := formData["role" := Profile.ValidRole(Prop(me.value, "role"))];
      } else {
        user := Null;
      }
      loading := false;
    }

    /** `handleChange`: only the named field takes the new value. */
    method HandleChange(name: string, value: string)
      requires Valid()
      modifies this
      ensures Valid() && formData == old(formData)[name := value]
      ensures forall k :: k != name && k in old(formData) ==> k in formData && formData[k] == old(formData)[k]
      ensures user == old(user) && loading == old(loading) && saving == old(saving) && error == old(error)
    {
      formData := formData[name := value];
    }

    /** `handleSubmit`: the form is posted; after the session is reloaded
        the page moves to the dashboard of its role. Any failure, including
        a reloaded session that is `null`, shows the server's message or the
        default text. `saving` is cleared either way. */
    method HandleSubmit(outcome: SaveOutcome) returns (posted: Form, target: Option<string>)
      requires Valid()
      modifies this
      ensures Valid() && !saving && posted == PayloadOf(old(formData))
      ensures outcome.Saved? && !Nullish(outcome.me) ==> target == Some(PostSubmitTarget(outcome.me)) && error == Str("")
      ensures outcome.Saved? && Nullish(outcome.me) ==> target.None? && error == Str(DefaultError)
      ensures outcome.PostFailed? ==> target.None? && error == ErrorText(outcome.err, DefaultError)
      ensures outcome.ReloadFailed? ==> target.None? && error == ErrorText(outcome.err, DefaultError)
      ensures formData == old(formData) && user == old(user) && loading == old(loading)
    {
      saving := true;
      error := Str("");
      posted := PayloadOf(formData);
      target := None;
      match outcome {
        case PostFailed(err) =>
          error := ErrorText(err, DefaultError);
        case ReloadFailed(err) =>
          error := ErrorText(err, DefaultError);
        case Saved(me) =>
          if Nullish(me) {
            ClientErrorText("Cannot read properties of null", DefaultError);
            error := ErrorText(Obj(map["message" := Str("Cannot read properties of null")]), DefaultError);
          } else {
            target := Some(PostSubmitTarget(me));
          }
      }
      saving := false;
    }
  }
}
