/** The application shell: the loading gate, the route table, and the two
    guards it uses, the inline one that sends visitors home and the
    `RequireAuth` wrapper. */
module App {
  import opened Text
  import opened Js
  import RequireAuth
  import Landing

  /** One segment of a route pattern: a literal or a `:param`. */
  datatype Seg = Lit(s: string) | Param

  /** How a page is guarded: not at all, by the inline guard with an
      optional role (`Undefined` when none is given), or by `RequireAuth`
      without allowed roles. */
  datatype Guard = Open | Inline(role: Value) | Require

  datatype Element = Page(name: string, guard: Guard) | RedirectTo(to: string)

  datatype Route = Route(pattern: seq<Seg>, element: Element)

  /** The routes in declaration order, in four blocks of four. A pattern
      lists the segments after the leading `/`; the root is the single
      empty segment. */
  const Entry: seq<Route> := [
    Route([Lit("")], Page("Landing", Open)),
    Route([Lit("login")], Page("LoginPage", Open)),
    Route([Lit("dashboard"), Lit("admin")], Page("AdminDashboard", Inline(Str("admin")))),
    Route([Lit("dashboard"), Lit("mentor")], Page("MentorDashboard", Inline(Str("mentor"))))
  ]

  const Pages: seq<Route> := [
    Route([Lit("dashboard"), Lit("mentee")], Page("MenteeDashboard", Inline(Str("mentee")))),
    Route([Lit("profile"), Param], Page("Profile", Inline(Undefined))),
    Route([Lit("onboarding")], Page("Onboarding", Inline(Undefined))),
    Route([Lit("find-mentor")], Page("FindMentor", Inline(Undefined)))
  ]

  const People: seq<Route> := [
    Route([Lit("find"), Lit("mentees")], Page("FindMentees", Require)),
    Route([Lit("mentees")], Page("FindMentees", Inline(Undefined))),
    Route([Lit("mentee"), Param], Page("MenteeProfile", Open)),
    Route([Lit("mentor"), Param], Page("MentorProfile", Inline(Undefined)))
  ]

  const Talk: seq<Route> := [
    Route([Lit("messages")], Page("Messages", Require)),
    Route([Lit("chat"), Param], Page("Chat", Require)),
    Route([Lit("sessions")], Page("Sessions", Require)),
    Route([Lit("chat")], RedirectTo("/messages"))
  ]

  const Routes: seq<Route> := Entry + Pages + People + Talk

  /** A literal matches itself; a parameter matches any non-empty segment. */
  predicate SegOk(p: Seg, s: string)
  {
    if p.Lit? then s == p.s else s != ""
  }

  /** A pattern matches the segments after the leading `/` when the counts
      agree and each segment is accepted by its pattern segment. */
  predicate Matches(pattern: seq<Seg>, segs: seq<string>)
  {
    |pattern| == |segs| && forall k :: 0 <= k < |pattern| ==> SegOk(pattern[k], segs[k])
  }

  /** The segments of an absolute path; `None` for a relative one. */
  function Segments(path: string): (r: Option<seq<string>>)
    ensures r.Some? ==> |r.value| >= 1
    ensures r.Some? <==> |Split(path, '/')| >= 2 && Split(path, '/')[0] == ""
  {
    var parts := Split(path, '/');
    if |parts| >= 2 && parts[0] == "" then Some(parts[1..]) else None
  }

  /** The element of the first route whose pattern matches. What it picks is
      stated by ResolveSpec. */
  function Resolve(routes: seq<Route>, segs: seq<string>): Option<Element>
  {
    if routes == [] then None
    else if Matches(routes[0].pattern, segs) then Some(routes[0].element)
    else Resolve(routes[1..], segs)
  }

  /** Nothing is found when no route matches; otherwise the element found is
      that of the first route that matches. */
  lemma {:induction false} ResolveSpec(routes: seq<Route>, segs: seq<string>)
    ensures Resolve(routes, segs).None? <==> forall i :: 0 <= i < |routes| ==> !Matches(routes[i].pattern, segs)
    ensures Resolve(routes, segs).Some? ==> exists i :: (0 <= i < |routes| && Matches(routes[i].pattern, segs)
      && Resolve(routes, segs).value == routes[i].element
      && forall j :: 0 <= j < i ==> !Matches(routes[j].pattern, segs))
  {
    if routes != [] && !Matches(routes[0].pattern, segs) {
      ResolveSpec(routes[1..], segs);
      var r := Resolve(routes[1..], segs);
      if r.Some? {
        var i :| 0 <= i < |routes[1..]| && Matches(routes[1..][i].pattern, segs)
          && r.value == routes[1..][i].element && forall j :: 0 <= j < i ==> !Matches(routes[1..][j].pattern, segs);
        assert routes[i + 1] == routes[1..][i];
        forall j | 0 <= j < i + 1 ensures !Matches(routes[j].pattern, segs) {
          if j > 0 {
            assert routes[j] == routes[1..][j - 1];
          }
        }
      } else {
        forall i | 0 < i < |routes| ensures !Matches(routes[i].pattern, segs) {
          assert routes[i] == routes[1..][i - 1];
        }
      }
    }
  }

  /** The table is searched block by block. */
  lemma {:induction false} ResolveAppend(a: seq<Route>, b: seq<Route>, segs: seq<string>)
    ensures Resolve(a + b, segs) == if Resolve(a, segs).Some? then Resolve(a, segs) else Resolve(b, segs)
  {
    if a != [] {
      ResolveAppend(a[1..], b, segs);
      assert (a + b)[1..] == a[1..] + b;
    } else {
      assert a + b == b;
    }
  }

  lemma ResolveBlocks(segs: seq<string>)
    ensures Resolve(Routes, segs) ==
      if Resolve(Entry, segs).Some? then Resolve(Entry, segs)
      else if Resolve(Pages, segs).Some? then Resolve(Pages, segs)
      else if Resolve(People, segs).Some? then Resolve(People, segs)
      else Resolve(Talk, segs)
  {
    ResolveAppend(Entry + Pages + People, Talk, segs);
    ResolveAppend(Entry + Pages, People, segs);
    ResolveAppend(Entry, Pages, segs);
  }

  /** A pattern of at most two segments that rejects the segments at its
      length or at one of its first two places. */
  predicate Excludes(pattern: seq<Seg>, segs: seq<string>)
  {
    |pattern| != |segs| || (|pattern| >= 1 && !SegOk(pattern[0], segs[0]))
    || (|pattern| >= 2 && !SegOk(pattern[1], segs[1]))
  }

  /** A pattern of at most two segments that accepts each of them. */
  predicate Accepts(pattern: seq<Seg>, segs: seq<string>)
  {
    |pattern| == |segs| && |pattern| <= 2
    && (|pattern| >= 1 ==> SegOk(pattern[0], segs[0]))
    && (|pattern| >= 2 ==> SegOk(pattern[1], segs[1]))
  }

  lemma ExcludesAccepts(pattern: seq<Seg>, segs: seq<string>)
    ensures Excludes(pattern, segs) ==> !Matches(pattern, segs)
    ensures Accepts(pattern, segs) ==> Matches(pattern, segs)
  {
  }

  /** A block of four routes none of which matches. */
  lemma NoneOfFour(block: seq<Route>, segs: seq<string>)
    requires |block| == 4
    requires Excludes(block[0].pattern, segs) && Excludes(block[1].pattern, segs)
    requires Excludes(block[2].pattern, segs) && Excludes(block[3].pattern, segs)
    ensures Resolve(block, segs).None?
  {
    ExcludesAccepts(block[0].pattern, segs);
    ExcludesAccepts(block[1].pattern, segs);
    ExcludesAccepts(block[2].pattern, segs);
    ExcludesAccepts(block[3].pattern, segs);
    assert block[3..][0] == block[3] && block[3..][1..] == [];
    assert Resolve(block[3..], segs).None?;
    assert block[2..][0] == block[2] && block[2..][1..] == block[3..];
    assert Resolve(block[2..], segs).None?;
    assert block[1..][0] == block[1] && block[1..][1..] == block[2..];
    assert Resolve(block[1..], segs).None?;
  }

  /** A block of four routes whose first match is its `k`th. */
  lemma FoundInFour(block: seq<Route>, segs: seq<string>, k: int)
    requires |block| == 4 && 0 <= k < 4
    requires k > 0 ==> Excludes(block[0].pattern, segs)
    requires k > 1 ==> Excludes(block[1].pattern, segs)
    requires k > 2 ==> Excludes(block[2].pattern, segs)
    requires Accepts(block[k].pattern, segs)
    ensures Resolve(block, segs) == Some(block[k].element)
  {
    ExcludesAccepts(block[0].pattern, segs);
    ExcludesAccepts(block[1].pattern, segs);
    ExcludesAccepts(block[2].pattern, segs);
    ExcludesAccepts(block[k].pattern, segs);
    assert block[3..][0] == block[3];
    assert block[2..][0] == block[2] && block[2..][1..] == block[3..];
    assert block[1..][0] == block[1] && block[1..][1..] == block[2..];
    if k == 3 {
      assert Resolve(block[3..], segs) == Some(block[3].element);
      assert Resolve(block[2..], segs) == Some(block[3].element);
    } else if k == 2 {
      assert Resolve(block[2..], segs) == Some(block[2].element);
    }
    if k >= 1 {
      assert Resolve(block[1..], segs) == Some(block[k].element);
    }
  }

  /** The inline guard admits a signed-in user whose role is the one asked
      for, or any signed-in user when no role is asked for. */
  function InlineAdmits(user: Value, role: Value): (r: bool)
    ensures r <==> Truthy(user) && (!Truthy(role) || Prop(user, "role") == role)
  {
    if !Truthy(user) then false
    else if Truthy(role) && Prop(user, "role") != role then false
    else true
  }

  /** What a visit to `path` shows. */
  datatype View = LoadingScreen | NoMatch | Redirect(to: string) | Show(page: string, nav: RequireAuth.Nav)

  function Visit(loading: bool, user: Value, path: string): (r: View)
    ensures loading ==> r == LoadingScreen
    ensures r.Show? && r.nav != RequireAuth.Stay ==>
      !loading && Segments(path).Some? && Resolve(Routes, Segments(path).value).Some?
      && Resolve(Routes, Segments(path).value).value.Page? && Resolve(Routes, Segments(path).value).value.guard == Require
      && r.nav == RequireAuth.Decide(false, user, path, None)
    ensures !loading && !Truthy(user) && r.Show? ==>
      Segments(path).Some? && Resolve(Routes, Segments(path).value).Some? && Resolve(Routes, Segments(path).value).value.Page?
      && (Resolve(Routes, Segments(path).value).value.guard == Open
          || Resolve(Routes, Segments(path).value).value.guard == Require)
  {
    if loading then LoadingScreen
    else match Segments(path)
      case None => NoMatch
      case Some(segs) =>
        match Resolve(Routes, segs)
        case None => NoMatch
        case Some(RedirectTo(to)) => Redirect(to)
        case Some(Page(name, Open)) => Show(name, RequireAuth.Stay)
        case Some(Page(name, Inline(role))) =>
          if InlineAdmits(user, role) then Show(name, RequireAuth.Stay) else Redirect("/")
        case Some(Page(name, Require)) => Show(name, RequireAuth.Decide(false, user, path, None))
  }

  // Where the paths used below lead in the table.

  lemma RouteChat(segs: seq<string>)
    requires segs == ["chat"]
    ensures Resolve(Routes, segs) == Some(RedirectTo("/messages"))
  {
    ResolveBlocks(segs);
    NoneOfFour(Entry, segs);
    NoneOfFour(Pages, segs);
    NoneOfFour(People, segs);
    FoundInFour(Talk, segs, 3);
  }

  lemma RouteLogin(segs: seq<string>)
    requires segs == ["login"]
    ensures Resolve(Routes, segs) == Some(Page("LoginPage", Open))
  {
    ResolveBlocks(segs);
    FoundInFour(Entry, segs, 1);
  }

  lemma RouteAdminDashboard(segs: seq<string>)
    requires segs == ["dashboard", "admin"]
    ensures Resolve(Routes, segs) == Some(Page("AdminDashboard", Inline(Str("admin"))))
  {
    ResolveBlocks(segs);
    FoundInFour(Entry, segs, 2);
  }

  lemma RouteMentorDashboard(segs: seq<string>)
    requires segs == ["dashboard", "mentor"]
    ensures Resolve(Routes, segs) == Some(Page("MentorDashboard", Inline(Str("mentor"))))
  {
    ResolveBlocks(segs);
    FoundInFour(Entry, segs, 3);
  }

  lemma RouteMenteeDashboard(segs: seq<string>)
    requires segs == ["dashboard", "mentee"]
    ensures Resolve(Routes, segs) == Some(Page("MenteeDashboard", Inline(Str("mentee"))))
  {
    ResolveBlocks(segs);
    NoneOfFour(Entry, segs);
    FoundInFour(Pages, segs, 0);
  }

  lemma RouteOnboarding(segs: seq<string>)
    requires segs == ["onboarding"]
    ensures Resolve(Routes, segs) == Some(Page("Onboarding", Inline(Undefined)))
  {
    ResolveBlocks(segs);
    NoneOfFour(Entry, segs);
    FoundInFour(Pages, segs, 2);
  }

  lemma RouteFindMentees(segs: seq<string>)
    requires segs == ["find", "mentees"]
    ensures Resolve(Routes, segs) == Some(Page("FindMentees", Require))
  {
    ResolveBlocks(segs);
    NoneOfFour(Entry, segs);
    NoneOfFour(Pages, segs);
    FoundInFour(People, segs, 0);
  }

  lemma RouteMentees(segs: seq<string>)
    requires segs == ["mentees"]
    ensures Resolve(Routes, segs) == Some(Page("FindMentees", Inline(Undefined)))
  {
    ResolveBlocks(segs);
    NoneOfFour(Entry, segs);
    NoneOfFour(Pages, segs);
    FoundInFour(People, segs, 1);
  }

  lemma RouteMenteeProfile(id: string, segs: seq<string>)
    requires id != "" && segs == ["mentee", id]
    ensures Resolve(Routes, segs) == Some(Page("MenteeProfile", Open))
  {
    ResolveBlocks(segs);
    NoneOfFour(Entry, segs);
    NoneOfFour(Pages, segs);
    FoundInFour(People, segs, 2);
  }

  // A visit once the table has picked the element.

  lemma VisitInline(user: Value, path: string, segs: seq<string>, name: string, role: Value)
    requires Segments(path) == Some(segs) && Resolve(Routes, segs) == Some(Page(name, Inline(role)))
    ensures Visit(false, user, path) == if InlineAdmits(user, role) then Show(name, RequireAuth.Stay) else Redirect("/")
  {
  }

  lemma VisitOther(user: Value, path: string, segs: seq<string>, e: Element)
    requires Segments(path) == Some(segs) && Resolve(Routes, segs) == Some(e)
    ensures e.RedirectTo? ==> Visit(false, user, path) == Redirect(e.to)
    ensures e.Page? && e.guard == Open ==> Visit(false, user, path) == Show(e.name, RequireAuth.Stay)
    ensures e.Page? && e.guard == Require ==> Visit(false, user, path) == Show(e.name, RequireAuth.Decide(false, user, path, None))
  {
  }

  lemma SegmentsOne(a: string)
    requires '/' !in a
    ensures Segments("/" + a) == Some([a])
  {
    SplitNoSep(a, '/');
    SplitCons("", '/', a);
    assert "/" + a == "" + ['/'] + a;
  }

  lemma SegmentsTwo(a: string, b: string)
    requires '/' !in a && '/' !in b
    ensures Segments("/" + a + "/" + b) == Some([a, b])
  {
    var t := a + ['/'] + b;
    SplitNoSep(b, '/');
    SplitCons(a, '/', b);
    assert Split(t, '/') == [a, b];
    SplitCons("", '/', t);
    assert "/" + a + "/" + b == "" + ['/'] + t;
    assert Split("/" + a + "/" + b, '/') == [""] + [a, b];
  }

  /** `/chat` with no one selected leads to the conversation list. */
  lemma ChatRedirects(user: Value)
    ensures Visit(false, user, "/chat") == Redirect("/messages")
  {
    var segs := ["chat"];
    SegmentsOne("chat");
    assert "/chat" == "/" + "chat";
    RouteChat(segs);
    VisitOther(user, "/chat", segs, RedirectTo("/messages"));
  }

  /** Each dashboard admits exactly the signed-in users of its role and
      sends everyone else home. */
  lemma AdminDashboardGuard(user: Value, path: string)
    requires path == "/dashboard/admin"
    ensures Visit(false, user, path) ==
      if Truthy(user) && Prop(user, "role") == Str("admin") then Show("AdminDashboard", RequireAuth.Stay) else Redirect("/")
  {
    var segs := ["dashboard", "admin"];
    SegmentsTwo("dashboard", "admin");
    assert path == "/" + "dashboard" + "/" + "admin";
    RouteAdminDashboard(segs);
    VisitInline(user, path, segs, "AdminDashboard", Str("admin"));
  }

  lemma MentorDashboardGuard(user: Value, path: string)
    requires path == "/dashboard/mentor"
    ensures Visit(false, user, path) ==
      if Truthy(user) && Prop(user, "role") == Str("mentor") then Show("MentorDashboard", RequireAuth.Stay) else Redirect("/")
  {
    var segs := ["dashboard", "mentor"];
    SegmentsTwo("dashboard", "mentor");
    assert path == "/" + "dashboard" + "/" + "mentor";
    RouteMentorDashboard(segs);
    VisitInline(user, path, segs, "MentorDashboard", Str("mentor"));
  }

  lemma MenteeDashboardGuard(user: Value, path: string)
    requires path == "/dashboard/mentee"
    ensures Visit(false, user, path) ==
      if Truthy(user) && Prop(user, "role") == Str("mentee") then Show("MenteeDashboard", RequireAuth.Stay) else Redirect("/")
  {
    var segs := ["dashboard", "mentee"];
    SegmentsTwo("dashboard", "mentee");
    assert path == "/" + "dashboard" + "/" + "mentee";
    RouteMenteeDashboard(segs);
    VisitInline(user, path, segs, "MenteeDashboard", Str("mentee"));
  }

  /** Onboarding is shown to every signed-in user. */
  lemma OnboardingGuard(user: Value)
    ensures Visit(false, user, "/onboarding") ==
      if Truthy(user) then Show("Onboarding", RequireAuth.Stay) else Redirect("/")
  {
    var segs := ["onboarding"];
    SegmentsOne("onboarding");
    assert "/onboarding" == "/" + "onboarding";
    RouteOnboarding(segs);
    VisitInline(user, "/onboarding", segs, "Onboarding", Undefined);
  }

  /** Every target of the landing page's redirect is a page the shell shows
      to that user, with no further redirect. */
  lemma LandingTargetsAdmitted(user: Value)
    requires Landing.AutoRedirect(false, user).Some?
    ensures Visit(false, user, Landing.AutoRedirect(false, user).value) ==
      Show(if Landing.AutoRedirect(false, user).value == "/onboarding" then "Onboarding"
           else if Prop(user, "role") == Str("mentor") then "MentorDashboard"
           else if Prop(user, "role") == Str("mentee") then "MenteeDashboard"
           else "AdminDashboard", RequireAuth.Stay)
  {
    var t := Landing.AutoRedirect(false, user).value;
    if t == "/onboarding" {
      OnboardingGuard(user);
    } else if Prop(user, "role") == Str("mentor") {
      MentorDashboardGuard(user, t);
    } else if Prop(user, "role") == Str("mentee") {
      MenteeDashboardGuard(user, t);
    } else {
      AdminDashboardGuard(user, t);
    }
  }

  /** The mentee search has two addresses with different guards: a visitor
      who is not signed in is sent to the login page from one and to the
      home page from the other. */
  lemma MenteeSearchGuardsDiffer(user: Value)
    requires !Truthy(user)
    ensures Visit(false, user, "/find/mentees") == Show("FindMentees", RequireAuth.Go("/login", Some("/find/mentees")))
    ensures Visit(false, user, "/mentees") == Redirect("/")
  {
    assert "/find/mentees" == "/" + "find" + "/" + "mentees";
    assert "/mentees" == "/" + "mentees";
    SegmentsTwo("find", "mentees");
    SegmentsOne("mentees");
    var segs := ["find", "mentees"];
    RouteFindMentees(segs);
    VisitOther(user, "/find/mentees", segs, Page("FindMentees", Require));
    var segs1 := ["mentees"];
    RouteMentees(segs1);
    VisitInline(user, "/mentees", segs1, "FindMentees", Undefined);
  }

  /** A mentee's profile is open to everyone, signed in or not. */
  lemma MenteeProfileOpen(user: Value, id: string)
    requires id != "" && '/' !in id
    ensures Visit(false, user, "/mentee/" + id) == Show("MenteeProfile", RequireAuth.Stay)
  {
    var segs := ["mentee", id];
    SegmentsTwo("mentee", id);
    assert "/mentee/" + id == "/" + "mentee" + "/" + id;
    RouteMenteeProfile(id, segs);
    VisitOther(user, "/mentee/" + id, segs, Page("MenteeProfile", Open));
  }

  /** Pages behind `RequireAuth` pass no allowed roles, so their wrapper only
      ever redirects to the login page or to onboarding, and both of those
      are shown to that user without a further redirect. */
  lemma RequireAuthRedirectsLand(user: Value, path: string)
    requires Visit(false, user, path).Show? && Visit(false, user, path).nav.Go?
    ensures Visit(false, user, path).nav.to == "/login" || Visit(false, user, path).nav.to == "/onboarding"
    ensures Visit(false, user, Visit(false, user, path).nav.to).Show?
    ensures Visit(false, user, Visit(false, user, path).nav.to).nav == RequireAuth.Stay
  {
    var nav := Visit(false, user, path).nav;
    assert nav == RequireAuth.Decide(false, user, path, None);
    if nav.to == "/login" {
      var segs := ["login"];
      SegmentsOne("login");
      assert "/login" == "/" + "login";
      RouteLogin(segs);
      VisitOther(user, "/login", segs, Page("LoginPage", Open));
    } else {
      assert Truthy(user);
      OnboardingGuard(user);
    }
  }
}
