# Mentor-matching client: a Dafny model of its page logic

This project models the decision logic of a React client for a mentoring
platform. Mentors and mentees sign in, complete an onboarding form, edit their
profiles, search for each other, book availability slots, chat in real time
and leave reviews. Administrators moderate users, reports and reviews.

The model covers what the pages compute and what their handlers change:

- **Routing and guards.** The route table and its two guards (`App`), the
  redirect chains of `RequireAuth`, `ProtectedRoute`, the landing page and the
  login page, and the onboarding form.
- **Chat.** The per-conversation view state that socket events update.
- **Profiles.** The normalisation, tag and list editors and the wire format of
  the profile page. The mentor and mentee profile pages. The slot booking panel.
- **Search.** The search and chip filters of the mentor and mentee search pages.
- **Administration.** The admin console, the review dialog and the
  availability calendar.

Each source file becomes one module:

- Pure logic is written as functions, with lemmas about them.
- State that a page keeps and its handlers update is written as a class. Its
  fields are that state, and each handler is a method whose `ensures` gives
  the new state. The few handlers that leave part of it unstated are named
  under "Left out".
- Three shared modules hold JavaScript's meaning of the operations the pages
  rely on. `Js` covers dynamic values, truthiness, `||`, `??`, `String(v)`,
  `join` and property reads. `Text` covers `trim`, `split`, `toLowerCase` and
  `includes`. `Seqs` covers `filter`, `slice` and removal by index.

The boundaries of the model are:

- HTTP requests are values that methods return.
- HTTP outcomes, socket events, `window.confirm` answers, `JSON.parse`,
  `Number(...)` and `JSON.stringify(...)` are parameters.
- A JavaScript `TypeError` raised while rendering is `None`.

## Model

| member | source | states |
|---|---|---|
| Landing.AutoRedirect | src/pages/Landing.jsx:19-30 | no redirect while the session loads or for a guest; a user who still has to onboard goes to /onboarding; otherwise the target is "/dashboard/" followed by the role, and there is a target exactly when the role is mentor, mentee or admin |
| Landing.ApiBase | src/pages/Landing.jsx:6 | the configured base is used when set, otherwise the local default; the result is never empty |
| Landing.GoogleUrl | src/pages/Landing.jsx:32-34 | the address is the API base, then "/auth/google?role=", then the role, with nothing else |
| Landing.GoogleUrlCarriesRole | src/pages/Landing.jsx:32-34 | two roles that give the same address are the same role |
| RequireAuth.OwnDashboard | src/components/RequireAuth.jsx:35-38 | a mentor is sent to the mentor dashboard and every other role to the mentee dashboard |
| RequireAuth.Decide | src/components/RequireAuth.jsx:14-40 | nothing happens while loading; a guest goes to /login with the current path as state, and only a guest is ever sent to /login; a user who has to onboard goes to /onboarding unless already there; a user whose role is not in a non-empty allowed list goes to their own dashboard, and that happens exactly in that case |
| RequireAuth.Precedence | src/components/RequireAuth.jsx:17-27 | the login check outranks the onboarding check, and onboarding outranks the role check, whatever the other inputs |
| RequireAuth.AllowedUserStays | src/components/RequireAuth.jsx:29-39 | an onboarded user whose role is allowed, or who faces no role list, is never moved |
| RequireAuth.Render | src/components/RequireAuth.jsx:42-50 | the children are drawn exactly when the session is not loading, even while the effect navigates away |
| ProtectedRoute.Guard | src/components/ProtectedRoute.jsx:5-26 | the checking message exactly while loading; a guest is sent home; the children are drawn exactly for a signed-in user whose role is in the list; a missing list throws for a signed-in user |
| ProtectedRoute.EmptyRolesAdmitNobody | src/components/ProtectedRoute.jsx:20-23 | an empty role list sends every signed-in user home |
| ReviewModal.Validate | src/components/ReviewModal.jsx:15-22 | a missing mentor is reported before a missing rating; nothing stops the submission exactly when the mentor id is truthy and the rating is not 0 |
| ReviewModal.Stars | src/components/ReviewModal.jsx:55-65 | five stars, and star i+1 is lit exactly when i is below the rating |
| ReviewModal.ClickedStarsLit | src/components/ReviewModal.jsx:55-65 | after star k is clicked, the first k stars are lit and the other 5-k are not |
| ReviewModal.ReviewForm.constructor | src/components/ReviewModal.jsx:7-10 | the dialog opens with rating 0, an empty comment, not busy and no error |
| ReviewModal.ReviewForm.ClickStar | src/components/ReviewModal.jsx:59 | the rating becomes the clicked star, that star is lit, and nothing else changes |
| ReviewModal.ReviewForm.EditComment | src/components/ReviewModal.jsx:72 | the comment becomes the typed text, and nothing else changes |
| ReviewModal.ReviewForm.Submit | src/components/ReviewModal.jsx:12-38 | a failed check shows its message and sends nothing; otherwise the request carries the mentor, rating and comment; success calls onSaved (when given) before onClose; failure shows the server message or "Failed to submit review"; busy ends false |
| AvailabilityCalendar.EventOf | src/components/MentorAvailabilityCalendar.jsx:18-26 | an event keeps the slot's id, start, end and status; it is titled "Available" exactly when the status is "available", and then it is blue (#cfe8ff/#007bff); otherwise it is "Booked" and red (#f8d7da/#dc3545) |
| AvailabilityCalendar.ToEvents | src/components/MentorAvailabilityCalendar.jsx:17-27 | data that is not an array throws; an array maps entry by entry, in order and with the same length, and throws exactly when some entry is null or undefined |
| AvailabilityCalendar.OneHourSlot | src/components/MentorAvailabilityCalendar.jsx:62-63 | the slot starts at the clicked instant and ends 3,600,000 ms later |
| AvailabilityCalendar.DeletableIffAvailable | src/components/MentorAvailabilityCalendar.jsx:86-90 | an event can be deleted exactly when it is drawn as "Available"; a booked slot never can |
| AvailabilityCalendar.Calendar.constructor | src/components/MentorAvailabilityCalendar.jsx:10 | the calendar starts with no events |
| AvailabilityCalendar.Calendar.Load | src/components/MentorAvailabilityCalendar.jsx:12-31 | one load request; the answer replaces the events when it maps; a failed request or data that does not map leaves the events as they were |
| AvailabilityCalendar.Calendar.Create | src/components/MentorAvailabilityCalendar.jsx:38-57 | nothing is sent unless confirmed; a confirmed range is posted; a successful post is followed by a reload; a failed post alerts "Failed to create slot." and keeps the events |
| AvailabilityCalendar.Calendar.DateClick | src/components/MentorAvailabilityCalendar.jsx:60-81 | nothing is sent and nothing changes unless confirmed; a confirmed click posts a slot from the clicked instant to one hour later; a successful post is followed by a reload whose mapped answer replaces the events, which are otherwise kept; a failed post alerts "Failed to create slot." and sends nothing more |
| AvailabilityCalendar.Calendar.EventClick | src/components/MentorAvailabilityCalendar.jsx:84-102 | an event that is not available is refused with "Cannot delete booked slots." before any question; a confirmed delete of an available slot is sent and followed by a reload, whose mapped answer replaces the events and which otherwise keeps them; a failed delete alerts "Failed to delete slot." and keeps the events; a delete is only ever sent for an available event |
| LoginPage.Bounce | src/pages/LoginPage.jsx:19-31 | no bounce while loading, while a submission is in flight or for a guest; a user who has to onboard goes to /onboarding; any other target is a dashboard, and only for the roles mentor and mentee |
| LoginPage.BounceAgreesWithLanding | src/pages/LoginPage.jsx:19-31 | for every role but admin the bounce equals the landing page's redirect; an onboarded admin stays on the login page, where the landing page sends them to /dashboard/admin |
| LoginPage.Endpoint | src/pages/LoginPage.jsx:39 | "signup" exactly in sign-up mode, otherwise "login" |
| LoginPage.PayloadOf | src/pages/LoginPage.jsx:40-48 | sign-up sends name, email, password and role, and is the only mode that sends a name or role; login sends email and password |
| LoginPage.ContextUser | src/pages/LoginPage.jsx:56-62 | a user is stored exactly when data.user is truthy; it holds the response user's fields, and its boolean onboarding flag is true exactly when data.needsOnboarding is the boolean true |
| LoginPage.TopLevelFlagWins | src/pages/LoginPage.jsx:71-72 | an explicit top-level false onboarding flag hides a nested true one |
| LoginPage.PostLogin | src/pages/LoginPage.jsx:63-102 | the server's redirect wins; then the response's onboarding flag, then the refreshed session's flags, lead to /onboarding; with no redirect and no flag, a coalesced role of mentor or mentee reaches that role's dashboard and any other role goes to /onboarding; a dashboard is chosen only in that case |
| LoginPage.RefreshResultIgnored | src/pages/LoginPage.jsx:79-95 | with a response that carries no user, the code as written sends the user to /onboarding, while using the session that the refresh fetches would send a mentor to /dashboard/mentor |
| LoginPage.ResponseRoleDecides | src/pages/LoginPage.jsx:91-99 | when the response names the role mentor and no onboarding flag is set, the target is the mentor dashboard, whether or not the refreshed session is consulted |
| LoginPage.LoginForm.constructor | src/pages/LoginPage.jsx:13-17 | the form opens in login mode with role mentee, empty fields, no error and not busy |
| LoginPage.LoginForm.OnSubmit | src/pages/LoginPage.jsx:33-108 | the request goes to the endpoint of the mode with the payload of the mode; an answer stores the context user and routes by PostLogin; a failure shows the server message or "Something went wrong"; busy ends false; mode, role and form are unchanged |
| Onboarding.InitialForm | src/pages/Onboarding.jsx:11-19 | the form holds exactly the seven fields, all empty except the role, which is "mentee" |
| Onboarding.VisibleFields | src/pages/Onboarding.jsx:87-210 | the skills field is drawn exactly for the mentor role, and the goals field exactly for any other role |
| Onboarding.PayloadOf | src/pages/Onboarding.jsx:64-68 | the posted body has the same keys and values as the form |
| Onboarding.HiddenFieldsAreSent | src/pages/Onboarding.jsx:152-210 | skills typed into the form are sent even though the mentee form does not show them |
| Onboarding.PostSubmitTarget | src/pages/Onboarding.jsx:74-76 | the mentor dashboard exactly when the reloaded role is "mentor", otherwise the mentee dashboard |
| Onboarding.ScreenOf | src/pages/Onboarding.jsx:43-54 | the form is drawn exactly when loading is over and a user is present |
| Onboarding.OnboardingForm.constructor | src/pages/Onboarding.jsx:10-22 | no user, the initial form, loading, not saving, no error |
| Onboarding.OnboardingForm.Loaded | src/pages/Onboarding.jsx:25-41 | loading ends; a session becomes the user and prefills the role with validRole of its role, the rest of the form unchanged; a failed request clears the user and keeps the form |
| Onboarding.OnboardingForm.HandleChange | src/pages/Onboarding.jsx:56-57 | only the named field takes the new value; every other field and flag is kept |
| Onboarding.OnboardingForm.HandleSubmit | src/pages/Onboarding.jsx:59-85 | the whole form is posted; after a reload the page goes to the dashboard of the role; a failed post, a failed reload or a null session shows the server message or "Failed to save profile. Try again."; saving ends false and the form is kept |
| App.Segments | src/App.jsx:37-153 | an address yields segments exactly when it starts with `/`, and then at least one |
| App.ResolveSpec | src/App.jsx:37-153 | no element exactly when no route matches; otherwise the element of the first route that matches |
| App.ResolveAppend | src/App.jsx:37-153 | looking up in two consecutive blocks of routes is looking up in the first and, failing that, in the second |
| App.InlineAdmits | src/App.jsx:25-30 | the inline guard lets a visitor through exactly when signed in and, if a role is asked for, holding that role |
| App.Visit | src/App.jsx:32-156 | while auth loads only the loading screen is shown; a page shown with a redirect decision is a `RequireAuth` page; a page shown to a visitor who is not signed in is unguarded or behind `RequireAuth` |
| App.VisitInline | src/App.jsx:25-30 | a page behind the inline guard is shown exactly when the guard admits the user, otherwise the visitor goes home |
| App.VisitOther | src/App.jsx:96-153 | a redirect route redirects, an unguarded page is shown, and a `RequireAuth` page is shown with the wrapper's decision for that address |
| App.ChatRedirects | src/App.jsx:153 | `/chat` leads to `/messages` for every user |
| App.AdminDashboardGuard | src/App.jsx:48-55 | the admin dashboard is shown exactly to signed-in admins; everyone else goes home |
| App.MentorDashboardGuard | src/App.jsx:56-63 | the mentor dashboard is shown exactly to signed-in mentors; everyone else goes home |
| App.MenteeDashboardGuard | src/App.jsx:64-71 | the mentee dashboard is shown exactly to signed-in mentees; everyone else goes home |
| App.OnboardingGuard | src/App.jsx:80-87 | onboarding is shown to every signed-in user and sends visitors home |
| App.LandingTargetsAdmitted | src/App.jsx:48-87 | every address the landing page redirects a user to shows that user its page with no further redirect |
| App.MenteeSearchGuardsDiffer | src/App.jsx:96-111 | for a visitor not signed in, `/find/mentees` goes to the login page remembering the address, while `/mentees` goes home |
| App.MenteeProfileOpen | src/App.jsx:112 | a mentee's profile is shown to everyone, signed in or not |
| App.RequireAuthRedirectsLand | src/App.jsx:121-144 | a `RequireAuth` page redirects only to the login page or to onboarding, and each of those is then shown with no further redirect |
| Chat.MarkSeen | src/pages/Chat.jsx:65-69 | the list keeps its length and every message is stamped with the arrival time exactly when I sent it |
| Chat.TypingSignal | src/pages/Chat.jsx:90-102 | the signal goes from me to the other user, and it is a stop exactly when the draft is all white space |
| Chat.SendRequest | src/pages/Chat.jsx:104-113 | nothing is posted exactly when the draft is all white space; otherwise the post goes to the other user with the trimmed, non-empty text |
| Chat.ReceiveAppendsIff | src/pages/Chat.jsx:46-53 | an incoming message is appended exactly when it is mine to the other user or theirs to me; the typing flag is kept |
| Chat.ReceiveOtherPair | src/pages/Chat.jsx:46-53 | a message between any other pair of users leaves the view unchanged |
| Chat.ReceiveTwiceListsTwice | src/pages/Chat.jsx:46-74 | no de-duplication: the same message delivered twice is listed twice |
| Chat.SeenFromOther | src/pages/Chat.jsx:63-71 | a seen event from the other user stamps exactly my messages, keeps the rest, and afterwards the badge shows on exactly my messages |
| Chat.SeenFromElse | src/pages/Chat.jsx:63-64 | a seen event from anyone else changes nothing |
| Chat.TypingFollowsOther | src/pages/Chat.jsx:55-61 | typing events from the other user set or clear the flag, from anyone else they are ignored, and the list is never touched |
| Chat.BodiesAppend | src/pages/Chat.jsx:50 | dropping `read_at` stamps distributes over concatenation |
| Chat.MarkSeenKeepsBodies | src/pages/Chat.jsx:65-69 | a seen event changes nothing but `read_at` stamps |
| Chat.StepBodies | src/pages/Chat.jsx:46-71 | one event adds exactly its message of this conversation, if any, up to `read_at` stamps |
| Chat.RunKeepsArrivalOrder | src/pages/Chat.jsx:46-77 | after any run of events the list is the earlier list followed by the received messages of this conversation, in arrival order with duplicates kept, up to `read_at` stamps |
| Chat.ChatView.constructor | src/pages/Chat.jsx:15-17 | empty list, not typing, empty draft |
| Chat.ChatView.LoadHistory | src/pages/Chat.jsx:22-37 | the history replaces the list and a seen acknowledgement goes from me to the other user |
| Chat.ChatView.OnReceive | src/pages/Chat.jsx:46-53 | the view takes the step of a received message: appended exactly when it belongs to this conversation |
| Chat.ChatView.OnTypingStart | src/pages/Chat.jsx:55-57 | the view takes the typing-start step: the flag is set exactly when the sender is the other user |
| Chat.ChatView.OnTypingStop | src/pages/Chat.jsx:59-61 | the view takes the typing-stop step: the flag is cleared exactly when the sender is the other user |
| Chat.ChatView.OnSeen | src/pages/Chat.jsx:63-71 | the view takes the seen step: my messages are stamped exactly when the event comes from the other user |
| Chat.ChatView.Mount | src/pages/Chat.jsx:89-102 | on mount the typing effect signals for the current draft; for the empty initial draft that is a typing stop from me to the other user |
| Chat.ChatView.Edit | src/pages/Chat.jsx:89-102 | the draft becomes the new text, and a typing signal for it is emitted exactly when the text changed |
| Chat.ChatView.Send | src/pages/Chat.jsx:104-113 | the post is the send request for the draft; a blank draft changes nothing, otherwise the draft is cleared and a typing stop is emitted |
| Profile.AsArray | src/pages/Profile.jsx:29-37 | an array is returned as it is, a falsy value gives [], and anything else gives only non-empty, trimmed, comma-free strings |
| Profile.ValidRole | src/pages/Profile.jsx:38 | the result is "mentor" or "mentee"; those two are kept and every other value gives "mentee" |
| Profile.ValidRoleIdempotent | src/pages/Profile.jsx:38 | applying the role check twice is applying it once |
| Profile.ProfileSafeArray | src/pages/Profile.jsx:49-60 | always an array: the given array, or the array the text parses to; [] for falsy, non-array, unparseable or parsed-to-non-array input |
| Profile.FirstUpper | src/pages/Profile.jsx:66 | at most one character, the capital of the first character when there is one |
| Profile.Initials | src/pages/Profile.jsx:66 | at most one character per word, starting with the capital of the first word's first character |
| Profile.GetInitialsAsWritten | src/pages/Profile.jsx:63-67 | the initials as the code computes them: at most two characters |
| Profile.InitialsOfBlankName | src/pages/Profile.jsx:63-67 | a name that is all white space gets the empty string, not "U" |
| Profile.InitialsAsWrittenBlank | src/pages/Profile.jsx:63-67 | the name "   ", which is truthy and so reaches the avatar, gets an empty avatar |
| Profile.GetInitials | src/pages/Profile.jsx:63-67 | "U" exactly for a blank name; otherwise one capital per word of the trimmed name's white-space split, for its first two words: two letters when there are two or more words, one for a single word |
| Profile.InitialsOfWords | src/pages/Profile.jsx:63-67 | words without white space joined by any runs of white space give the capitals of the first letters of the first two words, and a one-word name gives one letter |
| Profile.TagAdd | src/pages/Profile.jsx:847-853 | a blank input changes nothing; a tag already present only clears the input; otherwise the trimmed tag is appended and the input cleared |
| Profile.TagAddKeepsNoDup | src/pages/Profile.jsx:847-853 | adding keeps a duplicate-free list duplicate-free and adds at most one entry, a non-empty trimmed string |
| Profile.CommaTagComesBackSplit | src/pages/Profile.jsx:29-37 | a tag "a,b" sent and read back comes back as the two tags "a" and "b" |
| Profile.EmptyRow | src/pages/Profile.jsx:911 | an object with exactly the schema keys, each set to "" |
| Profile.ListAdd | src/pages/Profile.jsx:908-912 | the old rows unchanged, followed by one row with every schema key set to "" |
| Profile.ListUpdate | src/pages/Profile.jsx:913-917 | same length; every other row kept; the row at the index gets the key set to the value and keeps its other fields |
| Profile.SimpleAdd | src/pages/Profile.jsx:954 | the old entries unchanged, followed by "" |
| Profile.SimpleUpdate | src/pages/Profile.jsx:955-959 | same length; only the entry at the index changes, to the value |
| Profile.EditorRemove | src/pages/Profile.jsx:854-960 | exactly the entry at the index goes and the others keep their order; an index out of range changes nothing |
| Profile.JoinField | src/pages/Profile.jsx:1144-1147 | an array field becomes its elements joined with ", "; every other field and key is kept |
| Profile.CoerceRate | src/pages/Profile.jsx:1140-1142 | a rate other than "", null and undefined goes through the number conversion; every other field is kept |
| Profile.StringifyAvailability | src/pages/Profile.jsx:1148-1149 | an availability of object type, null included, is stringified; every other field is kept |
| Profile.JoinLists | src/pages/Profile.jsx:1144-1147 | exactly the three list fields that are arrays are joined with ", "; all other fields are kept |
| Profile.SerializeForApi | src/pages/Profile.jsx:1138-1151 | the same keys; list fields joined, the rate coerced, the availability stringified, every other field as it was |
| Profile.SerializeRoundTrip | src/pages/Profile.jsx:1138-1151 | a list field of non-empty, trimmed, comma-free tags, sent and read back, gives the same tags |
| Profile.JoinedTagsReadBack | src/pages/Profile.jsx:29-37 | such tags joined with ", " read back as themselves |
| Profile.ProfileEditor.constructor | src/pages/Profile.jsx:118-119 | the loaded profile is both the stored profile and the form; not editing, not saving, no error |
| Profile.ProfileEditor.OnChange | src/pages/Profile.jsx:133 | only the named form field changes |
| Profile.ProfileEditor.StartEdit | src/pages/Profile.jsx:311 | editing starts; nothing else changes |
| Profile.ProfileEditor.CancelEdit | src/pages/Profile.jsx:172-175 | the form goes back to the stored profile and editing ends |
| Profile.ProfileEditor.SaveAll | src/pages/Profile.jsx:153-170 | the serialised form is sent; on success it becomes the stored profile and editing ends; on failure the error is "Failed to save"; saving ends false either way |
| Profile.TagsEditor.constructor | src/pages/Profile.jsx:845-846 | the given tags and an empty input |
| Profile.TagsEditor.SetInput | src/pages/Profile.jsx:846 | only the input changes |
| Profile.TagsEditor.Add | src/pages/Profile.jsx:847-853 | the tags and input become those of the tag-add rule |
| Profile.TagsEditor.Remove | src/pages/Profile.jsx:854 | the tag at the index is removed and the input kept |
| FindMentees.AllCategoriesMeaning | src/pages/FindMentees.jsx:34-44 | a category is gathered exactly when some suggestion lists it |
| FindMentees.AllCategoriesClean | src/pages/FindMentees.jsx:37-41 | every gathered category is a non-empty, trimmed, comma-free string |
| FindMentees.Least | src/pages/FindMentees.jsx:43 | an element of the set that comes before every other element |
| FindMentees.SortedList | src/pages/FindMentees.jsx:43 | the members of the set, each once, in strictly increasing order |
| FindMentees.CategoriesUniverse | src/pages/FindMentees.jsx:34-44 | strictly sorted, so without repetition; holds exactly the categories some suggestion lists, each non-empty and trimmed |
| FindMentees.MatchingNone | src/pages/FindMentees.jsx:46-66 | no suggestions, nothing shown |
| FindMentees.MatchingSpec | src/pages/FindMentees.jsx:46-66 | the shown list is an order-preserving subsequence of the suggestions, and a suggestion is shown exactly when it passes the text test and the chip test |
| FindMentees.MatchingIdle | src/pages/FindMentees.jsx:47-57 | a blank query with no chip selected shows every suggestion, in order |
| FindMentees.MatchingHasActiveCategory | src/pages/FindMentees.jsx:56-61 | with chips selected, every shown suggestion has a trimmed category among them |
| FindMentees.HitsTextMeaning | src/pages/FindMentees.jsx:47-54 | the text test holds exactly when the needle occurs at some position in one of the five lowered fields |
| FindMentees.MatchingIgnoresQueryCase | src/pages/FindMentees.jsx:47 | lowering the query first does not change the shown list |
| FindMentees.Toggle | src/pages/FindMentees.jsx:68-73 | the chip's membership flips and no other chip's membership changes |
| FindMentees.ToggleTwice | src/pages/FindMentees.jsx:68-73 | toggling the same chip twice restores the selection |
| FindMentees.ShownTags | src/pages/FindMentees.jsx:173-196 | at most the cap, a prefix of the field's pieces, and all of them when they fit |
| FindMentees.HelpAreaTags | src/pages/FindMentees.jsx:173-177 | at most six help areas, a prefix of the field's pieces |
| FindMentees.InterestTags | src/pages/FindMentees.jsx:192-196 | at most six interests, a prefix of the field's pieces |
| FindMentees.MenteeSearch.constructor | src/pages/FindMentees.jsx:10-14 | no suggestions, empty query, no chip, empty list; the shown list is the filter of the rest |
| FindMentees.MenteeSearch.Load | src/pages/FindMentees.jsx:16-66 | the suggestions are replaced and the shown list is again their filter |
| FindMentees.MenteeSearch.SetQuery | src/pages/FindMentees.jsx:46-91 | the query changes and the shown list is again the filter |
| FindMentees.MenteeSearch.ToggleCat | src/pages/FindMentees.jsx:46-73 | the selection is toggled at that chip and the shown list is again the filter |
| FindMentees.MenteeSearch.ClearCats | src/pages/FindMentees.jsx:115-121 | the selection is emptied and the shown list is again the filter |
| FindMentor.SplitCsv | src/pages/FindMentor.jsx:237-244 | [] for a falsy value, an array as it is, and otherwise only non-empty, trimmed, comma-free strings |
| FindMentor.SplitCsvIsAsArray | src/pages/FindMentor.jsx:237-244 | it agrees on every value with the profile page's `asArray`, although the two test in the other order |
| FindMentor.SkillPills | src/pages/FindMentor.jsx:140-144 | at most four skill pills, the first pieces of the skills |
| FindMentor.InterestPills | src/pages/FindMentor.jsx:145-149 | at most two interest pills, the first pieces of the interests |
| FindMentor.SkillsLowerAsWritten | src/pages/FindMentor.jsx:44 | "" for falsy skills, the lowered text for string skills, and a thrown error for any other truthy value, arrays included |
| FindMentor.HitAsWritten | src/pages/FindMentor.jsx:40-45 | a name that contains the query is a hit without the skills being read |
| FindMentor.ArraySkillsThrow | src/pages/FindMentor.jsx:38-46 | one mentor with array skills whose name, expertise and bio miss the query makes the whole text filter throw |
| FindMentor.ArraySkillsBreakSearch | src/pages/FindMentor.jsx:34-47 | the single mentor with skills ["react"] and empty text fields makes the search for "x" throw |
| FindMentor.SkillsText | src/pages/FindMentor.jsx:44 | "" for falsy skills and the text itself for string skills |
| FindMentor.FilteredSpec | src/pages/FindMentor.jsx:34-47 | the list is an order-preserving subsequence of the mentors, and a mentor is listed exactly when it passes the availability switch and, for a non-blank query, the substring test over name, expertise, bio and skills |
| FindMentor.FilteredIdle | src/pages/FindMentor.jsx:37-39 | with the switch off and a blank query every mentor is listed, in order |
| FindMentor.AvailabilitySwitchOff | src/pages/FindMentor.jsx:37 | with the switch off the availability filter removes nothing |
| FindMentor.FilteredAgrees | src/pages/FindMentor.jsx:34-47 | wherever the code as written does not throw, it lists the same mentors as the corrected filter |
| FindMentor.TextFilterAgrees | src/pages/FindMentor.jsx:38-46 | the same for the text filter alone |
| FindMentor.AvatarInitials | src/pages/FindMentor.jsx:246-252 | one or two characters |
| FindMentor.FirstCharsOfSplit | src/pages/FindMentor.jsx:248-251 | the first characters of the blank-separated pieces are empty exactly when the name is all blanks, and otherwise begin with its first non-blank character |
| FindMentor.AvatarInitialsSpec | src/pages/FindMentor.jsx:246-252 | "M" for a name of blanks only; otherwise the initials begin with the name's first non-blank character |
| MentorProfile.TrimEach | src/pages/MentorProfile.jsx:58 | one chip per entry, the trimmed text of that entry |
| MentorProfile.Skills | src/pages/MentorProfile.jsx:54-63 | [] when the skills are absent; for an array the truthy entries, trimmed; for text its trimmed non-empty comma pieces; every chip is trimmed |
| MentorProfile.SkillsOfCleanArray | src/pages/MentorProfile.jsx:56-58 | an array of non-empty, trimmed, comma-free tags gives back exactly those tags, in order |
| MentorProfile.SkillsOfTextAgree | src/pages/MentorProfile.jsx:59-62 | for text the chips are exactly what the profile editor's `asArray` reads from the same text |
| MentorProfile.BlankArrayEntryKept | src/pages/MentorProfile.jsx:56-62 | an array entry made only of white space becomes an empty chip, while the same text gives no chip |
| MentorProfile.FindSlot | src/pages/MentorProfile.jsx:86 | nothing exactly when no slot has the id; otherwise the first slot with that id |
| MentorProfile.RemoveBookedSpec | src/pages/MentorProfile.jsx:97 | after a booking exactly the slots with that id are gone and the rest keep their order |
| MentorProfile.BookingPanel.constructor | src/pages/MentorProfile.jsx:49-73 | the loaded slots, nothing booking, the notice cleared |
| MentorProfile.BookingPanel.Begin | src/pages/MentorProfile.jsx:82-96 | the notice is cleared first; an unknown slot gives no request, nothing booking and the fallback error; a known slot gives the request for its times with the slot marked as booking |
| MentorProfile.BookingPanel.Finish | src/pages/MentorProfile.jsx:97-112 | success removes the slot and shows the success text; failure keeps the slots and shows the server message or the fallback; nothing is booking afterwards |
| MentorProfile.BookingPanel.BookSlot | src/pages/MentorProfile.jsx:82-113 | a request is made exactly when the slot is known; an unknown slot changes no slot and shows the fallback error; success removes the slot and shows the success text; failure keeps the slots and shows the error text; nothing is booking at the end |
| MenteeProfile.FirstTruthy | src/pages/MenteeProfile.jsx:69-71 | the first truthy of the two values, else the default |
| MenteeProfile.Name | src/pages/MenteeProfile.jsx:71 | the profile's `full_name`, else the account's name, else "Unnamed Mentee" |
| MenteeProfile.Avatar | src/pages/MenteeProfile.jsx:69-70 | the profile's avatar, else the account's, else the placeholder image |
| MenteeProfile.NameAndAvatarNeverBlank | src/pages/MenteeProfile.jsx:69-71 | the heading and the picture always show something |
| MenteeProfile.SplitField | src/pages/MenteeProfile.jsx:77-85 | [] when the field is missing, its trimmed non-empty comma pieces when it is text, and a thrown error exactly for any other truthy value |
| MenteeProfile.SplitFieldClean | src/pages/MenteeProfile.jsx:77-85 | every listed interest and desired skill is non-empty, trimmed and comma-free |
| MenteeProfile.EducationAsWritten | src/pages/MenteeProfile.jsx:87-95 | an array as it is; [] when parsing throws; otherwise whatever the text parses to, even a non-array |
| MenteeProfile.EducationNonArrayThrows | src/pages/MenteeProfile.jsx:87-182 | text that parses to a non-array makes the education rows throw |
| MenteeProfile.EducationNullTextThrows | src/pages/MenteeProfile.jsx:87-182 | the stored text "null" makes the page throw while rendering |
| MenteeProfile.Education | src/pages/MenteeProfile.jsx:87-95 | an array as it is, the entries of text that parses to an array, and [] for everything else |
| MenteeProfile.EducationMissing | src/pages/MenteeProfile.jsx:91 | a missing field is read as "[]" and gives no entries |
| MenteeProfile.EducationRowsAgree | src/pages/MenteeProfile.jsx:87-182 | the corrected rows do not throw for a non-array parse, and agree with the code as written wherever it does not throw |
| MenteeProfile.Draw | src/pages/MenteeProfile.jsx:196-218 | content is drawn exactly when truthy, tags and list exactly when present and non-empty |
| MenteeProfile.NotAddedYetIffEmpty | src/pages/MenteeProfile.jsx:219-221 | "Not added yet." shows exactly when the card draws no content, no tags and no list |
| MenteeProfile.GoalsCardNeverEmpty | src/pages/MenteeProfile.jsx:161-165 | the goals card always has content, so it never says "Not added yet." |
| MenteeProfile.TagCardEmptyIff | src/pages/MenteeProfile.jsx:219-221 | a tag card says "Not added yet." exactly when its tag list is empty |
| Js.MapEntries | src/pages/MenteeProfile.jsx:179-182 | one result per entry, in order, or a thrown error exactly when some entry is null or undefined |
| AdminDashboard.Gate | src/pages/AdminDashboard.jsx:141-147 | nothing while the session loads; the console exactly for a loaded admin; "Access denied" for everyone else |
| AdminDashboard.StatsOnlyForConsole | src/pages/AdminDashboard.jsx:62-147 | the statistics are fetched exactly when the console is drawn, so no one but an admin triggers the admin request |
| AdminDashboard.TabLoad | src/pages/AdminDashboard.jsx:178-183 | a tab starts a load exactly when it is users, sessions or reviews; the users tab loads every role |
| AdminDashboard.SetStatus | src/pages/AdminDashboard.jsx:59 | same length; ids and details kept; exactly the reports with the id take the new status |
| AdminDashboard.SetStatusLastWins | src/pages/AdminDashboard.jsx:59 | of two updates of one report the later wins |
| AdminDashboard.SetStatusCommutes | src/pages/AdminDashboard.jsx:59 | updates of different reports commute |
| AdminDashboard.DeleteUserSpec | src/pages/AdminDashboard.jsx:125 | after deleting, no row with that id is left and every other row stays, in order |
| AdminDashboard.MentorName | src/pages/AdminDashboard.jsx:158 | never blank: the mentor's name, else "Unknown Mentor" |
| AdminDashboard.MissingTopMentorsThrows | src/pages/AdminDashboard.jsx:156-161 | statistics whose `topMentors` is missing or null make the overview throw |
| AdminDashboard.TopMentorNames | src/pages/AdminDashboard.jsx:156-161 | no data when the list is not an array; otherwise one non-blank name per listed mentor, in order |
| AdminDashboard.TopMentorNamesAgree | src/pages/AdminDashboard.jsx:156-161 | the corrected data agrees with the code as written wherever that does not throw |
| AdminDashboard.AdminConsole.constructor | src/pages/AdminDashboard.jsx:28-41 | the overview tab, the "open" report filter, no reports, no users, not busy |
| AdminDashboard.AdminConsole.SelectTab | src/pages/AdminDashboard.jsx:178-183 | the tab switches; the load request is the tab's; busy is set exactly when a load starts |
| AdminDashboard.AdminConsole.UsersLoaded | src/pages/AdminDashboard.jsx:81-82 | the users are replaced and busy is cleared |
| AdminDashboard.AdminConsole.SetReportFilter | src/pages/AdminDashboard.jsx:43-51 | the filter changes and the reports are requested for it |
| AdminDashboard.AdminConsole.ReportsLoaded | src/pages/AdminDashboard.jsx:49 | the reports are replaced |
| AdminDashboard.AdminConsole.UpdateReportStatus | src/pages/AdminDashboard.jsx:53-60 | the patch is sent; only on success does the matching report take the new status |
| AdminDashboard.AdminConsole.DeleteUser | src/pages/AdminDashboard.jsx:116-130 | no request and no change without confirmation; on success the user's rows leave the list; on failure the list stays and an alert shows |
| AdminDashboard.AdminConsole.ToggleBlock | src/pages/AdminDashboard.jsx:103-114 | no request without confirmation; otherwise the opposite of the user's current flag is sent, and after success the users are loaded again |
| AdminDashboard.AdminConsole.DeleteReview | src/pages/AdminDashboard.jsx:132-139 | the confirmation is asked exactly when the review has a mentee, since `r.mentee.name` throws otherwise and nothing is sent; no request without confirmation; otherwise the delete of the review's id is sent, and after success the reviews are loaded again |
| Text.TrimStartSpec | src/pages/Chat.jsx:105 | `trim()` drops exactly a prefix of white space: what it keeps is a suffix of the input that is empty or starts with a non-space |
| Text.TrimEndSpec | src/pages/Chat.jsx:105 | the same at the end: a prefix of the input that is empty or ends with a non-space, the dropped tail all white space |
| Text.Trim | src/pages/Chat.jsx:105 | never longer than the input, and neither end of the result is white space |
| Text.TrimBlank | src/pages/Chat.jsx:92-106 | the trim is empty exactly when the input is all white space |
| Text.TrimChars | src/pages/Profile.jsx:35 | every character of the trim occurs in the input |
| Text.TrimIdempotent | src/pages/Profile.jsx:848 | trimming twice is trimming once |
| Text.JoinSplit | src/pages/Profile.jsx:34 | joining the pieces of a split with the separator gives back the input |
| Text.SplitJoin | src/pages/Profile.jsx:1144 | splitting undoes joining when no piece holds the separator |
| Text.SplitWsSpec | src/pages/Profile.jsx:64 | for a trimmed, non-empty string, `split(/\s+/)` gives non-empty pieces without white space, and the string is those pieces joined by non-empty runs of white space |
| Text.SplitWsGlue | src/pages/Profile.jsx:64 | conversely, splitting non-empty words joined by non-empty runs of white space gives back exactly the words |
| Text.CsvPieces | src/pages/Profile.jsx:33-36 | every piece of `.split(",").map(trim).filter(Boolean)` is non-empty, trimmed and comma-free |
| Text.CsvRoundTrip | src/pages/Profile.jsx:33-36 | non-empty, trimmed, comma-free tags joined with ", " split back into exactly those tags |
| Text.ToLower | src/pages/FindMentees.jsx:47 | same length, each character lowered, no capital letter left |
| Text.ToLowerIdempotent | src/pages/FindMentees.jsx:47-54 | lowering twice is lowering once |
| Text.TrimLower | src/pages/FindMentees.jsx:47 | trimming and lowering commute |
| Text.BeforeIrreflexive | src/pages/FindMentees.jsx:43 | the sort order never puts a string before itself |
| Text.BeforeTransitive | src/pages/FindMentees.jsx:43 | the sort order is transitive |
| Text.BeforeTotal | src/pages/FindMentees.jsx:43 | of two different strings one comes before the other |
| Text.IncludesIffOccurs | src/pages/FindMentees.jsx:50-54 | `includes` holds exactly when the needle occurs at some position of the text |
| Seqs.FilterSpec | src/pages/FindMentor.jsx:37-46 | the filter keeps exactly the elements that pass, each as often as in the input, as an order-preserving subsequence |
| Seqs.FilterAll | src/pages/FindMentor.jsx:37-39 | when every element passes, nothing is removed |
| Seqs.FilterAppend | src/pages/Chat.jsx:50 | filtering distributes over concatenation |
| Seqs.FilterFilterSpec | src/pages/FindMentor.jsx:36-46 | two filters in a row keep exactly the elements that pass both, as a subsequence |
| Seqs.FilterIdempotent | src/pages/FindMentees.jsx:48 | filtering twice by one test is filtering once |
| Seqs.Take | src/pages/FindMentees.jsx:177 | `slice(0, n)`: a prefix of at most n elements, all of them when they fit |
| Seqs.RemoveAt | src/pages/Profile.jsx:854 | `filter((_, idx) => idx !== i)`: the input without position i, or the input itself when i is out of range |
| Seqs.RemoveAtKeepsNoDup | src/pages/Profile.jsx:854 | removing keeps a duplicate-free list duplicate-free, as a subsequence of it |
| Js.Or | src/pages/MenteeProfile.jsx:69-73 | `a \|\| b`: a when truthy, else b; truthy exactly when one of them is |
| Js.Coalesce | src/pages/LoginPage.jsx:71-72 | `a ?? b`: a unless it is null or undefined |
| Js.ErrorText | src/pages/MentorProfile.jsx:106-108 | the server's message when it is truthy, else the fallback; never blank when the fallback is not |
| Js.ClientErrorText | src/pages/MentorProfile.jsx:87-108 | an error raised in the client has no response, so its text is the fallback |
| Js.JoinValues | src/pages/Profile.jsx:1144 | for an array of strings, `join(sep)` is the join of those strings |
| Js.StringsStrs | src/pages/Profile.jsx:1144 | wrapping strings as values and reading them back is the identity |

## Left out

- Network, sockets and timers. Axios calls, socket connect/join/disconnect, the 1.5 s typing timeout, the 600 ms autosave debounce and toast timers are not modelled. Outcomes and events are parameters; requests are returned values.
- Dates and floating point. `new Date()`, `Intl.DateTimeFormat`, ISO strings and the calendar's `toISOString()` are not modelled. Instants are integers of milliseconds, so `AvailabilityCalendar.Calendar.DateClick` posts numbers where the page posts ISO text. Ratings averages (`Number(m.avg)`) and the chart are left out. `ReviewModal` keeps the rating as an integer.
- `JSON.parse`, `Number(...)` and `JSON.stringify(...)` are parameters, not implementations.
- Text is modelled as sequences of code points, not UTF-16 units. `toLowerCase`/`toUpperCase` are modelled on ASCII letters only; other letters are left unchanged.
- `App.Visit`: React Router's route ranking is modelled as the first match in declaration order. Every pattern in the table is static or has one parameter, so no two routes of the table match the same path. Trailing slashes and case-insensitive matching are not modelled.
- Rendering of markup, CSS classes, icons, modals (`ReportModal`, `ChatsListModal`), `ReviewList` and `Navbar` is not part of this model. The review list's average and the profile page's chat list modal are outside the modelled core.
- The profile page's load normalisation (src/pages/Profile.jsx:102-126) and its `isMentor` memo (128-131) are not modelled. Their building blocks `AsArray` and `ValidRole` are. The debounced autosave (136-151) is not modelled either: it is timer-driven and writes the same wire format as `SaveAll`.
- `Profile.ProfileEditor.SaveAll`: the toast shown on each path is not modelled, only the error text.
- `FindMentees.MenteeSearch.Load` takes a sequence. The `data \|\| []` fallback for a null answer and the loading flag are not modelled.
- `Chat.ChatView.Edit`: after the first render the typing effect runs only when the draft changes, as its dependency on `text` makes it; its run on mount is `Chat.ChatView.Mount`. The timer-driven stop 1.5 s after typing is not modelled.
- `Chat.ChatView.OnSeen`: `new Date()` is the parameter `at`.
- `Chat`: user ids are modelled as strings compared by equality. The route parameter `otherId` is always a string, but the server and socket ids (`sender_id`, `receiver_id`, `from`, `user.id`) are assumed to arrive as strings too. With numeric ids, the source's `===` tests at Chat.jsx:47-48, 56, 60 and 64 would never match, and the page would show none of the partner's messages, typing or seen events.
- `AdminDashboard.AdminConsole`: the reports request sent on mount is the `GetReports("open")` request of `SetReportFilter`, not a separate member. `ReportsLoaded` takes a list of reports, so the `data || []` fallback for an empty answer is not modelled.
- The messages page, the sessions page and the mentor and mentee dashboards are outside the modelled core. The model records only which guard protects them (`App.Routes`).
- `AuthContext` is not part of this model. The session (`user`, `loading`) is a parameter, and `refresh()` is modelled by the value it resolves to (see Findings).
- `LoginPage.LoginForm.OnSubmit`: the field setters and the Google button are not modelled separately. The setters are plain assignments; the Google address is `Landing.GoogleUrl`.
- Spreading a value that is not an object (`{ ...v }`) is modelled as copying no fields. This is what JavaScript does for `null`, `undefined`, numbers and booleans; strings and arrays would contribute index keys, which the model does not represent.
- `FindMentor.HitAsWritten`: a non-string truthy `full_name`, `expertise` or `bio` would also throw in `toLowerCase`. The model types those fields as text, with "" for missing.

## Findings

| source | as written | input that shows it | evidently intended | confidence | as-written member | corrected member |
|---|---|---|---|---|---|---|
| src/pages/Profile.jsx:63-67 | `"".trim().split(/\s+/)` is `[""]`, so `parts.length` is never 0 and the "U" fallback is dead | full name "   " (truthy, so it reaches the avatar) gives empty initials | "U" for a blank name | high, not executed | Profile.GetInitialsAsWritten, Profile.InitialsAsWrittenBlank | Profile.GetInitials |
| src/pages/LoginPage.jsx:79-95 | the routing reads the result of `refresh()`, but the context's `refresh` (src/context/AuthContext.jsx:27-38) resolves to `undefined`, so the refreshed role and onboarding flags are never consulted | a response `{}` without `user` for a mentor session: the page goes to /onboarding | route by the refreshed session: /dashboard/mentor | medium, not executed | LoginPage.PostLoginAsWritten, LoginPage.RefreshResultIgnored | LoginPage.PostLogin |
| src/pages/MenteeProfile.jsx:87-95 | JSON text that parses to a non-array (`"null"`, `"{}"`) is returned as the education list, and `.map` on it throws while rendering | `education: "null"` | no education entries | high, not executed | MenteeProfile.EducationRowsAsWritten, MenteeProfile.EducationNullTextThrows | MenteeProfile.Education, MenteeProfile.EducationRowsAgree |
| src/pages/FindMentor.jsx:38-46 | `(m.skills \|\| "").toLowerCase()` throws for array skills, which `splitCSV` accepts for the pills, and one such mentor breaks the whole search | a mentor with skills `["react"]` and empty text fields, query "x" | search the skills' text | high, not executed | FindMentor.FilteredAsWritten, FindMentor.ArraySkillsBreakSearch | FindMentor.Filtered, FindMentor.FilteredSpec |
| src/pages/AdminDashboard.jsx:156-161 | the array test is made on `stats.topMentors \|\| []`, so a missing list passes it, `?.map` yields `undefined`, and `.length` on that throws | statistics without `topMentors` (or with `null`) | no chart data | high, not executed | AdminDashboard.TopMentorNamesAsWritten, AdminDashboard.MissingTopMentorsThrows | AdminDashboard.TopMentorNames, AdminDashboard.TopMentorNamesAgree |
