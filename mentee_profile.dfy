/** A mentee's public profile as another user sees it: the fallbacks for
    missing fields, the tag lists split from text, the education list read
    from an array or from JSON text, and the rule for an empty detail card. */
module MenteeProfile {
  import opened Seqs
  import opened Text
  import opened Js

  const PlaceholderAvatar := "https://via.placeholder.com/150"
  const UnnamedMentee := "Unnamed Mentee"
  const NoGoals := "Not specified."

  /** `a || b || dflt`: the first truthy of two values, else the default. */
  function FirstTruthy(a: Value, b: Value, dflt: string): (r: Value)
    ensures Truthy(a) ==> r == a
    ensures !Truthy(a) && Truthy(b) ==> r == b
    ensures !Truthy(a) && !Truthy(b) ==> r == Str(dflt)
  {
    Or(a, Or(b, Str(dflt)))
  }

  /** `profile.user?.key` */
  function UserProp(profile: Value, key: string): Value
  {
    Prop(Prop(profile, "user"), key)
  }

  /** The heading: `full_name`, else the account's name, else "Unnamed
      Mentee"; never empty. */
  function Name(profile: Value): (r: Value)
    ensures Truthy(Prop(profile, "full_name")) ==> r == Prop(profile, "full_name")
    ensures !Truthy(Prop(profile, "full_name")) && Truthy(UserProp(profile, "name")) ==> r == UserProp(profile, "name")
    ensures !Truthy(Prop(profile, "full_name")) && !Truthy(UserProp(profile, "name")) ==> r == Str(UnnamedMentee)
  {
    FirstTruthy(Prop(profile, "full_name"), UserProp(profile, "name"), UnnamedMentee)
  }

  /** The picture: the profile's avatar, else the account's, else the
      placeholder image. */
  function Avatar(profile: Value): (r: Value)
    ensures Truthy(Prop(profile, "avatar")) ==> r == Prop(profile, "avatar")
    ensures !Truthy(Prop(profile, "avatar")) && Truthy(UserProp(profile, "avatar")) ==> r == UserProp(profile, "avatar")
    ensures !Truthy(Prop(profile, "avatar")) && !Truthy(UserProp(profile, "avatar")) ==> r == Str(PlaceholderAvatar)
  {
    FirstTruthy(Prop(profile, "avatar"), UserProp(profile, "avatar"), PlaceholderAvatar)
  }

  /** Heading and picture always show something. */
  lemma NameAndAvatarNeverBlank(profile: Value)
    ensures Truthy(Name(profile)) && Truthy(Avatar(profile))
  {
  }

  /** `(v || "").split(",").map(trim).filter(Boolean)`: [] when missing, the
      clean pieces of text, and a `TypeError` (`None`) for any other value,
      which has no `split`. */
  function SplitField(v: Value): (r: Option<seq<string>>)
    ensures r.Some? <==> !Truthy(v) || v.Str?
    ensures !Truthy(v) ==> r == Some([])
    ensures v.Str? ==> r == Some(CsvPieces(v.s))
  {
    if !Truthy(v) then
      CsvEmpty();
      Some([])
    else if v.Str? then Some(CsvPieces(v.s))
    else None
  }

  /** Every listed interest or desired skill is a clean tag. */
  lemma SplitFieldClean(v: Value)
    requires SplitField(v).Some?
    ensures forall i :: 0 <= i < |SplitField(v).value| ==> CleanTag(SplitField(v).value[i])
  {
    var r := SplitField(v).value;
    forall i | 0 <= i < |r| ensures CleanTag(r[i]) {
      assert r[i] in r;
    }
  }

  function Interests(profile: Value): Option<seq<string>>
  {
    SplitField(Prop(profile, "interests"))
  }

  function DesiredSkills(profile: Value): Option<seq<string>>
  {
    SplitField(Prop(profile, "desired_skills"))
  }

  /** The text handed to `JSON.parse` when the field is not an array. */
  function EducationText(v: Value): string
  {
    ToString(Or(v, Str("[]")))
  }

  /** The `education` expression as written: an array as it is, else the
      parse of the text (or of "[]"), else [] when the parse throws. A parse
      that yields a non-array is returned unchanged. */
  function EducationAsWritten(v: Value, parse: Parser): (r: Value)
    ensures v.Arr? ==> r == v
    ensures !v.Arr? && parse(EducationText(v)).None? ==> r == Arr([])
    ensures !v.Arr? && parse(EducationText(v)).Some? ==> r == parse(EducationText(v)).value
  {
    if v.Arr? then v
    else match parse(EducationText(v))
      case None => Arr([])
      case Some(x) => x
  }

  /** One line of the education card: its bold `label` and its `sub` line. */
  datatype Row = Row(degree: string, sub: string)

  /** `${x || ""}` */
  function Interp(x: Value): string
  {
    ToString(Or(x, Str("")))
  }

  /** `{ label: degree, sub: "institution (year)" }` for one entry. */
  function RowOf(e: Value): Row
  {
    Row(Interp(Prop(e, "degree")),
        Interp(Prop(e, "institution")) + " (" + Interp(Prop(e, "year")) + ")")
  }

  /** `entries.map(toRow)`: one row per entry, in order; `None` when an
      entry is `null` or `undefined`. */
  function RowsOf(entries: seq<Value>): Option<seq<Row>>
  {
    MapEntries(entries, RowOf)
  }

  /** The education rows as written: `.map` on a value that is not an array
      throws (`None`). */
  function EducationRowsAsWritten(v: Value, parse: Parser): Option<seq<Row>>
  {
    var e := EducationAsWritten(v, parse);
    if e.Arr? then RowsOf(e.items) else None
  }

  /** Text that parses to something other than an array, such as the JSON
      text `null`, makes the page throw while rendering. */
  lemma EducationNonArrayThrows(v: Value, parse: Parser)
    requires !v.Arr?
    requires parse(EducationText(v)).Some? && !parse(EducationText(v)).value.Arr?
    ensures EducationRowsAsWritten(v, parse).None?
  {
  }

  lemma EducationNullTextThrows(parse: Parser)
    requires parse("null") == Some(Null)
    ensures EducationRowsAsWritten(Str("null"), parse).None?
  {
    EducationNonArrayThrows(Str("null"), parse);
  }

  /** The education entries as intended: an array as it is, the entries of
      text that parses to an array, and [] otherwise. */
  function Education(v: Value, parse: Parser): (r: seq<Value>)
    ensures v.Arr? ==> r == v.items
    ensures !v.Arr? && parse(EducationText(v)).Some? && parse(EducationText(v)).value.Arr? ==>
      r == parse(EducationText(v)).value.items
    ensures !v.Arr? && (parse(EducationText(v)).None? || !parse(EducationText(v)).value.Arr?) ==> r == []
  {
    if v.Arr? then v.items
    else match parse(EducationText(v))
      case Some(Arr(xs)) => xs
      case _ => []
  }

  function EducationRows(v: Value, parse: Parser): Option<seq<Row>>
  {
    RowsOf(Education(v, parse))
  }

  /** A missing field reads as "[]" and gives no entries. */
  lemma EducationMissing(v: Value, parse: Parser)
    requires !Truthy(v) && parse("[]") == Some(Arr([]))
    ensures Education(v, parse) == []
  {
    assert EducationText(v) == "[]";
  }

  /** The intended rows never throw for a non-array parse, and agree with the
      code as written wherever that does not throw. */
  lemma EducationRowsAgree(v: Value, parse: Parser)
    ensures !v.Arr? && parse(EducationText(v)).Some? && !parse(EducationText(v)).value.Arr? ==>
      EducationRows(v, parse) == Some([])
    ensures EducationRowsAsWritten(v, parse).Some? ==> EducationRows(v, parse) == EducationRowsAsWritten(v, parse)
  {
  }

  /** The props of one `DetailCard`; `None` is a prop not passed. */
  datatype Card = Card(content: Value, tags: Option<seq<string>>, list: Option<seq<Row>>)

  /** Which parts of a card are drawn. */
  datatype Drawn = Drawn(content: bool, tags: bool, list: bool, notAddedYet: bool)

  function Draw(c: Card): (r: Drawn)
    ensures r.content <==> Truthy(c.content)
    ensures r.tags <==> c.tags.Some? && |c.tags.value| > 0
    ensures r.list <==> c.list.Some? && |c.list.value| > 0
  {
    var hasTags := c.tags.Some? && |c.tags.value| > 0;
    var hasList := c.list.Some? && |c.list.value| > 0;
    Drawn(Truthy(c.content), hasTags, hasList,
      !Truthy(c.content) && !(c.tags.Some? && |c.tags.value| != 0) && !(c.list.Some? && |c.list.value| != 0))
  }

  /** "Not added yet." shows exactly when nothing else in the card does. */
  lemma NotAddedYetIffEmpty(c: Card)
    ensures Draw(c).notAddedYet <==> !Draw(c).content && !Draw(c).tags && !Draw(c).list
  {
  }

  /** The goals card always has content, so it is never "Not added yet." */
  lemma GoalsCardNeverEmpty(profile: Value)
    ensures !Draw(Card(Or(Prop(profile, "goals"), Str(NoGoals)), None, None)).notAddedYet
  {
  }

  /** A tag card is empty exactly when its list of tags is. */
  lemma TagCardEmptyIff(tags: seq<string>)
    ensures Draw(Card(Undefined, Some(tags), None)).notAddedYet <==> tags == []
  {
  }
}
