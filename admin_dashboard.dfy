/** The admin console: the admin-only gate, the tabs and which of them load
    data, report status updates, blocking and deleting users, deleting
    reviews, and the top-mentor chart data. */
module AdminDashboard {
  import opened Seqs
  import opened Text
  import opened Js

  /** A report; `details` holds the fields the console only displays. */
  datatype Report = Report(id: string, status: string, details: map<string, Value>)

  /** A user row; `blocked` is read for truthiness. */
  datatype User = User(id: string, name: Value, blocked: Value)

  /** The requests the console sends. */
  datatype Request =
    | PatchReport(reportId: string, status: string)
    | GetReports(filter: string)
    | GetUsers(role: string)
    | GetSessions
    | GetReviews
    | GetStats
    | PutBlock(userId: string, blocked: bool)
    | DeleteUserReq(userId: string)
    | DeleteReviewReq(reviewId: Value)

  /** What the page draws: nothing while the session loads, the refusal
      for anyone who is not an admin, else the console. */
  datatype Screen = Nothing | AccessDenied | Console

  function Gate(loading: bool, user: Value): (r: Screen)
    ensures loading ==> r == Nothing
    ensures !loading && Prop(user, "role") != Str("admin") ==> r == AccessDenied
    ensures r == Console <==> !loading && Prop(user, "role") == Str("admin")
  {
    if loading then Nothing
    else if Prop(user, "role") != Str("admin") then AccessDenied
    else Console
  }

  /** The statistics effect: it fetches only once the session has loaded,
      for a signed-in admin. */
  function LoadsStats(loading: bool, user: Value): bool
  {
    !(loading || !Truthy(user)) && Prop(user, "role") == Str("admin")
  }

  /** The statistics are fetched exactly when the console is drawn, so a
      non-admin never triggers the admin request. */
  lemma StatsOnlyForConsole(loading: bool, user: Value)
    ensures LoadsStats(loading, user) <==> Gate(loading, user) == Console
  {
  }

  /** Selecting tab `t` loads data only for the users, sessions and reviews
      tabs. */
  function TabLoad(t: string): (r: Option<Request>)
    ensures r.Some? <==> t == "users" || t == "sessions" || t == "reviews"
    ensures t == "users" ==> r == Some(GetUsers("all"))
  {
    if t == "users" then Some(GetUsers("all"))
    else if t == "sessions" then Some(GetSessions)
    else if t == "reviews" then Some(GetReviews)
    else None
  }

  /** `r.map((x) => x.id === id ? { ...x, status } : x)` */
  function SetStatus(reports: seq<Report>, id: string, status: string): (r: seq<Report>)
    ensures |r| == |reports|
    ensures forall i :: 0 <= i < |r| ==> r[i].id == reports[i].id && r[i].details == reports[i].details
    ensures forall i :: 0 <= i < |r| ==> r[i].status == (if reports[i].id == id then status else reports[i].status)
  {
    seq(|reports|, i requires 0 <= i < |reports| =>
      if reports[i].id == id then reports[i].(status := status) else reports[i])
  }

  /** The same status twice is the status once, and of two updates of one
      report the later wins. */
  lemma SetStatusLastWins(reports: seq<Report>, id: string, a: string, b: string)
    ensures SetStatus(SetStatus(reports, id, a), id, b) == SetStatus(reports, id, b)
  {
  }

  /** Updates of different reports commute. */
  lemma SetStatusCommutes(reports: seq<Report>, id1: string, s1: string, id2: string, s2: string)
    requires id1 != id2
    ensures SetStatus(SetStatus(reports, id1, s1), id2, s2) == SetStatus(SetStatus(reports, id2, s2), id1, s1)
  {
  }

  function NotUser(id: string): User -> bool
  {
    (x: User) => x.id != id
  }

  /** After deleting, no row with that id is left and every other row stays,
      in order. */
  lemma DeleteUserSpec(users: seq<User>, id: string)
    ensures IsSubseq(Filter(users, NotUser(id)), users)
    ensures forall x :: x in Filter(users, NotUser(id)) <==> x in users && x.id != id
  {
    FilterSpec(users, NotUser(id));
  }

  /** `m.mentor?.name || "Unknown Mentor"` */
  function MentorName(m: Value): (r: Value)
    ensures Truthy(r)
    ensures !Truthy(Prop(Prop(m, "mentor"), "name")) ==> r == Str("Unknown Mentor")
  {
    Or(Prop(Prop(m, "mentor"), "name"), Str("Unknown Mentor"))
  }

  /** `topMentorData` as written, names only; `None` is a value without a
      `length`, on which the overview throws. The array test is made on
      `topMentors || []`, so a missing list passes it and is then mapped
      through `?.`, which yields `undefined`. */
  function TopMentorNamesAsWritten(topMentors: Value): (r: Option<seq<Value>>)
  {
    if Or(topMentors, Arr([])).Arr? then
      if topMentors.Arr? then MapEntries(topMentors.items, MentorName) else None
    else Some([])
  }

  /** Statistics without a `topMentors` list break the overview. */
  lemma MissingTopMentorsThrows()
    ensures TopMentorNamesAsWritten(Undefined).None?
    ensures TopMentorNamesAsWritten(Null).None?
  {
  }

  /** `topMentorData` as intended: one name per listed mentor, and no data
      when the list is not an array. */
  function TopMentorNames(topMentors: Value): (r: Option<seq<Value>>)
    ensures !topMentors.Arr? ==> r == Some([])
    ensures topMentors.Arr? && r.Some? ==> |r.value| == |topMentors.items|
    ensures topMentors.Arr? && r.Some? ==>
      forall i :: 0 <= i < |r.value| ==> r.value[i] == MentorName(topMentors.items[i]) && Truthy(r.value[i])
  {
    if topMentors.Arr? then MapEntries(topMentors.items, MentorName) else Some([])
  }

  /** The intended data agrees with the code as written wherever that does
      not throw. */
  lemma TopMentorNamesAgree(topMentors: Value)
    requires TopMentorNamesAsWritten(topMentors).Some?
    ensures TopMentorNames(topMentors) == TopMentorNamesAsWritten(topMentors)
  {
  }

  /** The console's state. */
  class AdminConsole {
    var tab: string
    var reportFilter: string
    var reports: seq<Report>
    var users: seq<User>
    var busy: bool

    /** The initial state. The reports request the page sends on mount is
        `SetReportFilter("open")`'s request, `GetReports("open")`. */
    constructor()
      ensures tab == "overview" && reportFilter == "open"
      ensures reports == [] && users == [] && !busy
    {
      tab := "overview";
      reportFilter := "open";
      reports := [];
      users := [];
      busy := false;
    }

    /** A tab button: the tab switches, and the users, sessions and reviews
        tabs start a load, which shows the busy state. */
    method SelectTab(t: string) returns (req: Option<Request>)
      modifies this
      ensures tab == t && req == TabLoad(t)
      ensures busy == (old(busy) || req.Some?)
      ensures reports == old(reports) && users == old(users) && reportFilter == old(reportFilter)
    {
      tab := t;
      req := TabLoad(t);
      if req.Some? {
        busy := true;
      }
    }

    /** A load finished; only the users list is kept in this model. */
    method UsersLoaded(data: seq<User>)
      modifies this
      ensures users == data && !busy
      ensures tab == old(tab) && reports == old(reports) && reportFilter == old(reportFilter)
    {
      users := data;
      busy := false;
    }

    /** The report filter changes and the reports are fetched again. */
    method SetReportFilter(status: string) returns (req: Request)
      modifies this
      ensures reportFilter == status && req == GetReports(status)
      ensures tab == old(tab) && reports == old(reports) && users == old(users) && busy == old(busy)
    {
      reportFilter := status;
      req := GetReports(status);
    }

    /** The reports answer replaces the list. The answer is taken as a list
        of reports, so the `data || []` fallback for an empty answer is not
        represented. */
    method ReportsLoaded(data: seq<Report>)
      modifies this
      ensures reports == data
      ensures tab == old(tab) && users == old(users) && busy == old(busy) && reportFilter == old(reportFilter)
    {
      reports := data;
    }

    /** `updateReportStatus`: the patch is sent first; only when it succeeds
        does the matching report take the new status. */
    method UpdateReportStatus(id: string, status: string, patchOk: bool) returns (req: Request)
      modifies this
      ensures req == PatchReport(id, status)
      ensures patchOk ==> reports == SetStatus(old(reports), id, status)
      ensures !patchOk ==> reports == old(reports)
      ensures tab == old(tab) && users == old(users) && busy == old(busy) && reportFilter == old(reportFilter)
    {
      req := PatchReport(id, status);
      if patchOk {
        reports := SetStatus(reports, id, status);
      }
    }

    /** `deleteUser`: nothing without confirmation; on success the user's
        rows leave the list; on failure the list stays and an alert shows. */
    method DeleteUser(u: User, confirmed: bool, deleteOk: bool) returns (req: Option<Request>, alerted: bool)
      modifies this
      ensures !confirmed ==> req.None? && !alerted && users == old(users)
      ensures confirmed ==> req == Some(DeleteUserReq(u.id))
      ensures confirmed && deleteOk ==> users == Filter(old(users), NotUser(u.id)) && !alerted
      ensures confirmed && !deleteOk ==> users == old(users) && alerted
      ensures tab == old(tab) && reports == old(reports) && busy == old(busy) && reportFilter == old(reportFilter)
    {
      alerted := false;
      if !confirmed {
        req := None;
        return;
      }
      req := Some(DeleteUserReq(u.id));
      if deleteOk {
        users := Filter(users, NotUser(u.id));
      } else {
        alerted := true;
      }
    }

    /** `toggleBlock`: nothing without confirmation; otherwise the opposite
        of the current flag is sent, and after success the users are loaded
        again. */
    method ToggleBlock(u: User, confirmed: bool, putOk: bool) returns (reqs: seq<Request>)
      modifies this
      ensures !confirmed ==> reqs == [] && busy == old(busy)
      ensures confirmed && !putOk ==> reqs == [PutBlock(u.id, !Truthy(u.blocked))] && busy == old(busy)
      ensures confirmed && putOk ==> reqs == [PutBlock(u.id, !Truthy(u.blocked)), GetUsers("all")] && busy
      ensures tab == old(tab) && reports == old(reports) && users == old(users) && reportFilter == old(reportFilter)
    {
      if !confirmed {
        reqs := [];
        return;
      }
      reqs := [PutBlock(u.id, !Truthy(u.blocked))];
      if putOk {
        busy := true;
        reqs := reqs + [GetUsers("all")];
      }
    }

    /** `deleteReview`: the confirmation text reads `r.mentee.name`, which
        throws for a review without a mentee, so such a review is never
        asked about and never deleted, although its row draws a Delete
        button. Otherwise nothing is sent without confirmation; the delete is
        sent, and after success the reviews are loaded again. */
    method DeleteReview(review: Value, confirmed: bool, deleteOk: bool) returns (asked: bool, reqs: seq<Request>)
      modifies this
      ensures asked <==> !Nullish(Prop(review, "mentee"))
      ensures !asked || !confirmed ==> reqs == [] && busy == old(busy)
      ensures asked && confirmed && !deleteOk ==> reqs == [DeleteReviewReq(Prop(review, "id"))] && busy == old(busy)
      ensures asked && confirmed && deleteOk ==> reqs == [DeleteReviewReq(Prop(review, "id")), GetReviews] && busy
      ensures tab == old(tab) && reports == old(reports) && users == old(users) && reportFilter == old(reportFilter)
    {
      reqs := [];
      asked := !Nullish(Prop(review, "mentee"));
      if !asked || !confirmed {
        return;
      }
      reqs := [DeleteReviewReq(Prop(review, "id"))];
      if deleteOk {
        busy := true;
        reqs := reqs + [GetReviews];
      }
    }
  }
}
