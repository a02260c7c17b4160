/** The mentor search page: the availability switch and the search box that
    narrow the suggestions, the capped skill and interest pills, and the
    initials of the avatar. */
module FindMentor {
  import opened Seqs
  import opened Text
  import opened Js
  import Profile

  /** A suggested mentor. The text fields are "" when missing; `skills` and
      `interests` stay dynamic because the page accepts them both as text and
      as arrays, and `hasAvailability` because it is compared with `=== true`. */
  datatype MentorCard = MentorCard(
    id: string,
    fullName: string,
    expertise: string,
    bio: string,
    skills: Value,
    interests: Value,
    hasAvailability: Value)

  /** `splitCSV`: [] for a falsy value, an array as it is, and otherwise the
      trimmed non-empty comma pieces. */
  function SplitCsv(v: Value): (r: seq<Value>)
    ensures !Truthy(v) ==> r == []
    ensures v.Arr? ==> r == v.items
    ensures !v.Arr? ==> forall i :: 0 <= i < |r| ==> r[i].Str? && CleanTag(r[i].s)
  {
    if !Truthy(v) then []
    else if v.Arr? then v.items
    else Strs(CsvPieces(ToString(v)))
  }

  /** `splitCSV` here and `asArray` on the profile page test in the other
      order, and agree on every value. */
  lemma SplitCsvIsAsArray(v: Value)
    ensures SplitCsv(v) == Profile.AsArray(v)
  {
  }

  /** At most four skill pills and two interest pills, the first ones. */
  function SkillPills(m: MentorCard): (r: seq<Value>)
    ensures |r| <= 4 && r <= SplitCsv(m.skills)
  {
    Take(SplitCsv(m.skills), 4)
  }

  function InterestPills(m: MentorCard): (r: seq<Value>)
    ensures |r| <= 2 && r <= SplitCsv(m.interests)
  {
    Take(SplitCsv(m.interests), 2)
  }

  /** The first filter: with the switch on, only `has_availability === true`. */
  function AvailOk(onlyAvail: bool): MentorCard -> bool
  {
    (m: MentorCard) => !onlyAvail || m.hasAvailability == Bool(true)
  }

  /** `(m.skills || "").toLowerCase()` as written: text for a falsy or string
      value, and a `TypeError` (`None`) for any other value. */
  function SkillsLowerAsWritten(v: Value): (r: Option<string>)
    ensures !Truthy(v) ==> r == Some("")
    ensures v.Str? ==> r == Some(ToLower(v.s))
    ensures Truthy(v) && !v.Str? ==> r.None?
  {
    if !Truthy(v) then Some("") else if v.Str? then Some(ToLower(v.s)) else None
  }

  /** The text test as written, with `||` short-circuiting: the skills are
      only read when name, expertise and bio all miss, and reading them can
      throw. */
  function HitAsWritten(m: MentorCard, q: string): (r: Option<bool>)
    ensures Includes(ToLower(m.fullName), q) ==> r == Some(true)
  {
    if Includes(ToLower(m.fullName), q) || Includes(ToLower(m.expertise), q) || Includes(ToLower(m.bio), q)
    then Some(true)
    else
      match SkillsLowerAsWritten(m.skills)
      case None => None
      case Some(s) => Some(Includes(s, q))
  }

  /** `filter` over the text test as written: the first throw aborts it. */
  function TextFilterAsWritten(ms: seq<MentorCard>, q: string): (r: Option<seq<MentorCard>>)
    decreases |ms|
  {
    if ms == [] then Some([])
    else
      match HitAsWritten(ms[0], q)
      case None => None
      case Some(hit) =>
        match TextFilterAsWritten(ms[1..], q)
        case None => None
        case Some(rest) => Some(if hit then [ms[0]] + rest else rest)
  }

  /** `filtered` as written; `None` stands for the `TypeError` thrown while
      rendering. */
  function FilteredAsWritten(mentors: seq<MentorCard>, search: string, onlyAvail: bool): Option<seq<MentorCard>>
  {
    var avail := Filter(mentors, AvailOk(onlyAvail));
    var q := ToLower(Trim(search));
    if q == "" then Some(avail) else TextFilterAsWritten(avail, q)
  }

  /** A mentor whose skills arrive as an array (which `splitCSV` accepts)
      and whose name, expertise and bio miss the query makes the whole
      filter throw. */
  lemma {:induction false} ArraySkillsThrow(ms: seq<MentorCard>, q: string, m: MentorCard)
    requires m in ms && m.skills.Arr?
    requires !Includes(ToLower(m.fullName), q) && !Includes(ToLower(m.expertise), q)
    requires !Includes(ToLower(m.bio), q)
    ensures TextFilterAsWritten(ms, q).None?
    decreases |ms|
  {
    if ms[0] != m {
      ArraySkillsThrow(ms[1..], q, m);
    }
  }

  /** The smallest such case: one mentor with array skills and empty text,
      and the query "x". */
  lemma ArraySkillsBreakSearch(m: MentorCard, search: string)
    requires m == MentorCard("1", "", "", "", Arr([Str("react")]), Null, Null)
    requires search == "x"
    ensures FilteredAsWritten([m], search, false).None?
  {
    FilterAll([m], AvailOk(false));
    TrimTrimmed(search);
    assert ToLower(search) == search;
    assert ToLower(m.fullName) == "";
    ArraySkillsThrow([m], search, m);
  }

  /** The skills as searchable text: an array is read through its joined
      text, anything else truthy through `String(...)`. */
  function SkillsText(v: Value): (r: string)
    ensures !Truthy(v) ==> r == ""
    ensures v.Str? ==> r == v.s
  {
    if !Truthy(v) then "" else if v.Arr? then JoinValues(v.items, ", ") else ToString(v)
  }

  /** The text test as intended: a case-insensitive substring test over
      name, expertise, bio and skills. */
  predicate Hit(m: MentorCard, q: string)
  {
    || Includes(ToLower(m.fullName), q)
    || Includes(ToLower(m.expertise), q)
    || Includes(ToLower(m.bio), q)
    || Includes(ToLower(SkillsText(m.skills)), q)
  }

  function TextOk(q: string): MentorCard -> bool
  {
    (m: MentorCard) => q == "" || Hit(m, q)
  }

  /** `filtered`, reading the skills through `SkillsText`. */
  function Filtered(mentors: seq<MentorCard>, search: string, onlyAvail: bool): seq<MentorCard>
  {
    Filter(Filter(mentors, AvailOk(onlyAvail)), TextOk(ToLower(Trim(search))))
  }

  /** The list is an order-preserving subsequence of the suggestions, and a
      mentor is listed exactly when it passes both filters. */
  lemma FilteredSpec(mentors: seq<MentorCard>, search: string, onlyAvail: bool)
    ensures IsSubseq(Filtered(mentors, search, onlyAvail), mentors)
    ensures forall m :: m in Filtered(mentors, search, onlyAvail) <==>
      && m in mentors
      && (!onlyAvail || m.hasAvailability == Bool(true))
      && (ToLower(Trim(search)) == "" || Hit(m, ToLower(Trim(search))))
  {
    var q := ToLower(Trim(search));
    FilterFilterSpec(mentors, AvailOk(onlyAvail), TextOk(q));
    forall m: MentorCard
      ensures AvailOk(onlyAvail)(m) == (!onlyAvail || m.hasAvailability == Bool(true))
      ensures TextOk(q)(m) == (q == "" || Hit(m, q))
    {
    }
  }

  /** Without the switch and with a blank query nothing is removed. */
  lemma FilteredIdle(mentors: seq<MentorCard>, search: string)
    requires forall k :: 0 <= k < |search| ==> IsSpace(search[k])
    ensures Filtered(mentors, search, false) == mentors
  {
    TrimBlank(search);
    FilterAll(mentors, AvailOk(false));
    FilterAll(mentors, TextOk(ToLower(Trim(search))));
  }

  /** With the switch off the availability filter removes nothing. */
  lemma AvailabilitySwitchOff(mentors: seq<MentorCard>)
    ensures Filter(mentors, AvailOk(false)) == mentors
  {
    FilterAll(mentors, AvailOk(false));
  }

  /** Wherever the code as written does not throw, it lists the same mentors
      as the intended filter. */
  lemma FilteredAgrees(mentors: seq<MentorCard>, search: string, onlyAvail: bool)
    requires FilteredAsWritten(mentors, search, onlyAvail).Some?
    ensures FilteredAsWritten(mentors, search, onlyAvail).value == Filtered(mentors, search, onlyAvail)
  {
    var avail := Filter(mentors, AvailOk(onlyAvail));
    var q := ToLower(Trim(search));
    if q == "" {
      FilterAll(avail, TextOk(q));
    } else {
      TextFilterAgrees(avail, q);
    }
  }

  lemma {:induction false} TextFilterAgrees(ms: seq<MentorCard>, q: string)
    requires q != "" && TextFilterAsWritten(ms, q).Some?
    ensures TextFilterAsWritten(ms, q).value == Filter(ms, TextOk(q))
    decreases |ms|
  {
    if ms != [] {
      TextFilterAgrees(ms[1..], q);
      var m := ms[0];
      assert HitAsWritten(m, q).Some?;
      assert HitAsWritten(m, q).value == Hit(m, q) by {
        if !m.skills.Str? && Truthy(m.skills) {
          assert HitAsWritten(m, q) == Some(true);
        }
      }
    }
  }

  /** `Avatar` initials: the first characters of the pieces of the name split
      at single blanks, at most two of them, or "M" when there are none. */
  function AvatarInitials(name: string): (r: string)
    ensures 1 <= |r| <= 2
  {
    var firsts := FirstChars(Split(name, ' '));
    var two := Take(firsts, 2);
    if two == "" then "M" else two
  }

  /** `.map((n) => n[0]).join("")`: an empty piece contributes nothing. */
  function FirstChars(pieces: seq<string>): string
    decreases |pieces|
  {
    if pieces == [] then ""
    else (if pieces[0] == "" then "" else [pieces[0][0]]) + FirstChars(pieces[1..])
  }

  /** A name made of blanks only has no initials and gets "M"; any other name
      begins its initials with its first non-blank character. */
  lemma {:induction false} FirstCharsOfSplit(s: string)
    ensures FirstChars(Split(s, ' ')) == "" <==> forall k :: 0 <= k < |s| ==> s[k] == ' '
    ensures FirstChars(Split(s, ' ')) != "" ==>
      exists k :: 0 <= k < |s| && s[k] != ' ' && FirstChars(Split(s, ' '))[0] == s[k]
        && forall j :: 0 <= j < k ==> s[j] == ' '
    decreases |s|
  {
    if s != [] {
      var rest := Split(s[1..], ' ');
      FirstCharsOfSplit(s[1..]);
      if s[0] == ' ' {
        assert Split(s, ' ') == [""] + rest;
        assert FirstChars(Split(s, ' ')) == FirstChars(rest) by {
          assert ([""] + rest)[1..] == rest;
        }
        if FirstChars(rest) != "" {
          var k :| 0 <= k < |s[1..]| && s[1..][k] != ' ' && FirstChars(rest)[0] == s[1..][k]
            && forall j :: 0 <= j < k ==> s[1..][j] == ' ';
          assert s[k + 1] == s[1..][k];
          assert forall j :: 0 <= j < k + 1 ==> s[j] == ' ' by {
            forall j | 0 <= j < k + 1 ensures s[j] == ' ' {
              if j > 0 {
                assert s[j] == s[1..][j - 1];
              }
            }
          }
        } else {
          assert forall k :: 0 <= k < |s| ==> s[k] == ' ' by {
            forall k | 0 <= k < |s| ensures s[k] == ' ' {
              if k > 0 {
                assert s[k] == s[1..][k - 1];
              }
            }
          }
        }
      } else {
        var first := [s[0]] + rest[0];
        assert Split(s, ' ') == [first] + rest[1..];
        assert FirstChars(Split(s, ' ')) == [s[0]] + FirstChars(rest[1..]) by {
          assert ([first] + rest[1..])[1..] == rest[1..];
        }
      }
    }
  }

  lemma AvatarInitialsSpec(name: string)
    ensures (forall k :: 0 <= k < |name| ==> name[k] == ' ') ==> AvatarInitials(name) == "M"
    ensures (exists k :: 0 <= k < |name| && name[k] != ' ') ==>
      exists k :: 0 <= k < |name| && name[k] != ' ' && AvatarInitials(name)[0] == name[k]
        && forall j :: 0 <= j < k ==> name[j] == ' '
  {
    FirstCharsOfSplit(name);
  }
}
