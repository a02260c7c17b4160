/** The profile page: the normalisation helpers it applies to stored fields,
    the avatar initials, the tag and list editors, the wire format sent to the
    server, and the edit/save/cancel state of the form. */
module Profile {
  import opened Seqs
  import opened Text
  import opened Js

  /** `asArray`: an array is kept as it is, a falsy value gives [], and
      anything else is read as comma-separated text, each piece a non-empty,
      trimmed, comma-free string. */
  function AsArray(v: Value): (r: seq<Value>)
    ensures v.Arr? ==> r == v.items
    ensures !Truthy(v) ==> r == []
    ensures !v.Arr? ==> forall i :: 0 <= i < |r| ==> r[i].Str? && CleanTag(r[i].s)
  {
    if v.Arr? then v.items
    else if Truthy(v) then Strs(CsvPieces(ToString(v)))
    else []
  }

  /** `validRole`: "mentor" and "mentee" are kept, anything else reads as
      "mentee". */
  function ValidRole(v: Value): (r: string)
    ensures r == "mentor" || r == "mentee"
    ensures v == Str("mentor") || v == Str("mentee") ==> v == Str(r)
    ensures v != Str("mentor") ==> r == "mentee"
  {
    if v == Str("mentor") || v == Str("mentee") then v.s else "mentee"
  }

  lemma ValidRoleIdempotent(v: Value)
    ensures ValidRole(Str(ValidRole(v))) == ValidRole(v)
  {
  }

  /** `profileSafeArray`: always an array. A non-empty result is either the
      array that was given or the array that the given text parses to; every
      other input (falsy, not an array, unparseable, parsed to a non-array)
      gives []. */
  function ProfileSafeArray(v: Value, parse: Parser): (r: seq<Value>)
    ensures r == [] || v == Arr(r) || (v.Str? && parse(v.s) == Some(Arr(r)))
    ensures v.Arr? ==> r == v.items
    ensures !Truthy(v) ==> r == []
    ensures v.Str? && v.s != "" && (parse(v.s).None? || !parse(v.s).value.Arr?) ==> r == []
    ensures !v.Arr? && !v.Str? ==> r == []
  {
    if !Truthy(v) then []
    else if v.Str? then
      match parse(v.s)
      case Some(j) => ArrayOrEmpty(j)
      case None => []
    else ArrayOrEmpty(v)
  }

  /** `p[0]?.toUpperCase() || ""` */
  function FirstUpper(p: string): (r: string)
    ensures |r| <= 1
    ensures p != "" ==> r == [UpperChar(p[0])]
  {
    if p == "" then "" else [UpperChar(p[0])]
  }

  /** The first letters of the parts, capitalised; one per non-empty part. */
  function Initials(parts: seq<string>): (r: string)
    ensures |r| <= |parts|
    ensures (forall i :: 0 <= i < |parts| ==> parts[i] != "") ==>
      |r| == |parts| && forall i :: 0 <= i < |r| ==> r[i] == UpperChar(parts[i][0])
  {
    if parts == [] then "" else FirstUpper(parts[0]) + Initials(parts[1..])
  }

  /** `getInitials` as written: the "U" branch tests the length of the split,
      which is never empty, so a blank name gives "" rather than "U". */
  function GetInitialsAsWritten(name: string): (r: string)
    ensures |r| <= 2
  {
    var parts := Take(SplitWs(Trim(name)), 2);
    if |parts| == 0 then "U" else Initials(parts)
  }

  /** The split of a trimmed string is never empty, so a name that is blank
      after trimming gets no initials at all. */
  lemma InitialsOfBlankName(name: string)
    requires forall k :: 0 <= k < |name| ==> IsSpace(name[k])
    ensures GetInitialsAsWritten(name) == ""
  {
    TrimBlank(name);
    assert SplitWs("") == [""];
    assert Take([""], 2) == [""];
    assert Initials([""]) == "" + Initials([]);
  }

  /** The whitespace-only name "   " (truthy, so it is not replaced by
      "User") gives an empty avatar. */
  lemma InitialsAsWrittenBlank()
    ensures GetInitialsAsWritten("   ") == ""
  {
    InitialsOfBlankName("   ");
  }

  /** `getInitials` as intended: "U" for a blank name, otherwise the
      capitalised first letters of the first two white-space separated
      words of the trimmed name. */
  function GetInitials(name: string): (r: string)
    ensures 1 <= |r| <= 2
    ensures Trim(name) == "" ==> r == "U"
    ensures Trim(name) != "" ==> |r| == (if |SplitWs(Trim(name))| >= 2 then 2 else 1)
    ensures Trim(name) != "" ==> forall i :: 0 <= i < |r| ==>
      SplitWs(Trim(name))[i] != "" && r[i] == UpperChar(SplitWs(Trim(name))[i][0])
  {
    var t := Trim(name);
    if t == "" then "U"
    else
      SplitWsSpec(t);
      var parts := Take(SplitWs(t), 2);
      assert forall i :: 0 <= i < |parts| ==> parts[i] == SplitWs(t)[i];
      GetInitialsAsWritten(name)
  }

  /** Words without white space, joined by runs of white space, give the
      capitals of the first letters of the first two words: one letter for
      a one-word name. */
  lemma InitialsOfWords(words: seq<string>, runs: seq<string>)
    requires |words| == |runs| + 1
    requires forall i :: 0 <= i < |words| ==> words[i] != [] && SpaceFree(words[i])
    requires forall i :: 0 <= i < |runs| ==> SpaceRun(runs[i])
    ensures GetInitials(Glue(words, runs)) ==
      if |words| >= 2 then [UpperChar(words[0][0]), UpperChar(words[1][0])] else [UpperChar(words[0][0])]
  {
    var name := Glue(words, runs);
    GlueStart(words, runs);
    GlueEnd(words, runs);
    assert words[0][0] in words[0];
    var last := words[|words| - 1];
    assert last[|last| - 1] in last;
    assert IsTrimmed(name);
    TrimTrimmed(name);
    SplitWsGlue(words, runs);
  }

  /** `TagsEditor.add`: a blank input changes nothing; a tag already present
      only clears the input; otherwise the trimmed tag is appended and the
      input cleared. */
  function TagAdd(value: seq<Value>, input: string): (r: (seq<Value>, string))
    ensures Trim(input) == "" ==> r == (value, input)
    ensures Trim(input) != "" ==> r.1 == ""
    ensures Str(Trim(input)) in value ==> r.0 == value
    ensures Trim(input) != "" && Str(Trim(input)) !in value ==> r.0 == value + [Str(Trim(input))]
  {
    var next := Trim(input);
    if next == "" then (value, input)
    else if Str(next) in value then (value, "")
    else (value + [Str(next)], "")
  }

  /** Adding keeps a duplicate-free tag list duplicate-free and only ever adds
      a non-empty trimmed string. */
  lemma TagAddKeepsNoDup(value: seq<Value>, input: string)
    requires NoDup(value)
    ensures NoDup(TagAdd(value, input).0)
    ensures |TagAdd(value, input).0| <= |value| + 1
    ensures forall i :: |value| <= i < |TagAdd(value, input).0| ==>
      TagAdd(value, input).0[i] == Str(Trim(input)) && Trim(input) != "" && IsTrimmed(Trim(input))
  {
    var next := Trim(input);
    if next != "" && Str(next) !in value {
      var r := value + [Str(next)];
      forall i, j | 0 <= i < j < |r| ensures r[i] != r[j] {
        if j == |value| {
          assert r[i] == value[i];
        }
      }
    }
  }

  /** The pieces of "a,b" are "a" and "b". */
  lemma CsvOfAB()
    ensures CsvPieces("a,b") == ["a", "b"]
  {
    assert CleanTag("a") && CleanTag("b");
    assert "a,b" == "a" + [','] + "b";
    CsvTwo("a", "b");
  }

  /** A comma typed inside a tag is not kept: after the round trip through
      the wire format the tag "a,b" comes back as two tags. */
  lemma CommaTagComesBackSplit()
    ensures AsArray(Str(JoinValues([Str("a,b")], ", "))) == [Str("a"), Str("b")]
  {
    assert Strs(["a", "b"]) == [Str("a"), Str("b")];
    assert Strings([Str("a,b")]) == ["a,b"];
    assert JoinValues([Str("a,b")], ", ") == "a,b";
    CsvOfAB();
  }

  /** The row that `ListEditor.add` appends: every schema key set to "". */
  function EmptyRow(schema: seq<string>): (r: Value)
    ensures r.Obj? && r.fields.Keys == set k | k in schema
    ensures forall k :: k in r.fields ==> r.fields[k] == Str("")
  {
    Obj(map k | k in schema :: Str(""))
  }

  /** `ListEditor.add`: the old rows followed by one empty row. */
  function ListAdd(value: seq<Value>, schema: seq<string>): (r: seq<Value>)
    ensures |r| == |value| + 1 && r[..|value|] == value
    ensures r[|value|].Obj? && r[|value|].fields.Keys == set k | k in schema
    ensures forall k :: k in r[|value|].fields ==> r[|value|].fields[k] == Str("")
  {
    value + [EmptyRow(schema)]
  }

  /** The own properties that `{ ...v }` copies: those of an object. */
  function Spread(v: Value): map<string, Value>
  {
    if v.Obj? then v.fields else map[]
  }

  /** `ListEditor.update(idx, key, val)`: copy the rows, then replace row `idx`
      by a copy with `key` set to `val`. Only that field of that row changes. */
  method ListUpdate(value: seq<Value>, idx: int, key: string, val: Value) returns (next: seq<Value>)
    requires 0 <= idx < |value|
    ensures |next| == |value|
    ensures forall i :: 0 <= i < |value| && i != idx ==> next[i] == value[i]
    ensures next[idx].Obj?
    ensures next[idx].fields.Keys == Spread(value[idx]).Keys + {key}
    ensures next[idx].fields[key] == val
    ensures forall k :: k in Spread(value[idx]) && k != key ==> next[idx].fields[k] == Spread(value[idx])[k]
  {
    var a := new Value[|value|](i requires 0 <= i < |value| => value[i]);
    a[idx] := Obj(Spread(a[idx])[key := val]);
    next := a[..];
  }

  /** `SimpleListEditor.add`: the old entries followed by "". */
  function SimpleAdd(value: seq<Value>): (r: seq<Value>)
    ensures |r| == |value| + 1 && r[..|value|] == value && r[|value|] == Str("")
  {
    value + [Str("")]
  }

  /** `SimpleListEditor.update(idx, val)`: copy the entries, then replace
      entry `idx`. */
  method SimpleUpdate(value: seq<Value>, idx: int, val: Value) returns (next: seq<Value>)
    requires 0 <= idx < |value|
    ensures |next| == |value| && next[idx] == val
    ensures forall i :: 0 <= i < |value| && i != idx ==> next[i] == value[i]
  {
    var a := new Value[|value|](i requires 0 <= i < |value| => value[i]);
    a[idx] := val;
    next := a[..];
  }

  /** Removing row `idx` in either list editor, or tag `idx` in the tag
      editor: exactly that position goes, the others keep their order. */
  lemma EditorRemove(value: seq<Value>, idx: int)
    ensures 0 <= idx < |value| ==> |RemoveAt(value, idx)| == |value| - 1
    ensures forall i :: 0 <= i < idx && i < |value| ==> RemoveAt(value, idx)[i] == value[i]
    ensures forall i :: 0 <= idx <= i < |value| - 1 ==> RemoveAt(value, idx)[i] == value[i + 1]
    ensures !(0 <= idx < |value|) ==> RemoveAt(value, idx) == value
    ensures IsSubseq(RemoveAt(value, idx), value)
  {
    RemoveAtSubseq(value, idx);
  }

  /** The list fields that travel as comma-separated text. */
  predicate IsListKey(k: string)
  {
    k == "skills" || k == "interests" || k == "desired_skills"
  }

  /** The fields that `serializeForAPI` may rewrite. */
  predicate IsRewrittenKey(k: string)
  {
    IsListKey(k) || k == "hourly_rate" || k == "availability"
  }

  /** `typeof v === "object"` */
  predicate IsObjectType(v: Value)
  {
    v.Null? || v.Arr? || v.Obj?
  }

  /** An array field becomes its elements joined with ", ". */
  function JoinField(o: map<string, Value>, k: string): (r: map<string, Value>)
    ensures r.Keys == o.Keys
    ensures forall j :: j in o && j != k ==> r[j] == o[j]
    ensures k in o && o[k].Arr? ==> r[k] == Str(JoinValues(o[k].items, ", "))
    ensures k in o && !o[k].Arr? ==> r[k] == o[k]
  {
    if k in o && o[k].Arr? then o[k := Str(JoinValues(o[k].items, ", "))] else o
  }

  /** A rate that is neither "" nor `null`/`undefined` goes through
      `Number(...)`. */
  function CoerceRate(o: map<string, Value>, toNumber: Value -> Value): (r: map<string, Value>)
    ensures r.Keys == o.Keys
    ensures forall j :: j in o && j != "hourly_rate" ==> r[j] == o[j]
    ensures "hourly_rate" in o ==>
      r["hourly_rate"] == if o["hourly_rate"] in {Str(""), Null, Undefined} then o["hourly_rate"] else toNumber(o["hourly_rate"])
  {
    var rate := Get(o, "hourly_rate");
    if rate != Str("") && !rate.Null? && !rate.Undefined? then o["hourly_rate" := toNumber(rate)] else o
  }

  /** An availability of object type (including `null`) goes through
      `JSON.stringify(...)`. */
  function StringifyAvailability(o: map<string, Value>, stringify: Value -> string): (r: map<string, Value>)
    ensures r.Keys == o.Keys
    ensures forall j :: j in o && j != "availability" ==> r[j] == o[j]
    ensures "availability" in o ==>
      r["availability"] == if IsObjectType(o["availability"]) then Str(stringify(o["availability"])) else o["availability"]
  {
    var avail := Get(o, "availability");
    if IsObjectType(avail) then o["availability" := Str(stringify(avail))] else o
  }

  /** The three list fields joined with ", ". */
  function JoinLists(o: map<string, Value>): (r: map<string, Value>)
    ensures r.Keys == o.Keys
    ensures forall k :: k in o && !IsListKey(k) ==> r[k] == o[k]
    ensures forall k :: k in o && IsListKey(k) && o[k].Arr? ==> r[k] == Str(JoinValues(o[k].items, ", "))
    ensures forall k :: k in o && IsListKey(k) && !o[k].Arr? ==> r[k] == o[k]
  {
    var o1 := JoinField(o, "skills");
    var o2 := JoinField(o1, "interests");
    var r := JoinField(o2, "desired_skills");
    forall k | k in o && !IsListKey(k)
      ensures r[k] == o[k]
    {
      assert r[k] == o2[k] && o2[k] == o1[k];
    }
    r
  }

  /** `serializeForAPI`: the same keys; the list fields joined with ", ", the
      rate coerced and the availability stringified; every other field as it
      was. `Number(...)` and `JSON.stringify(...)` are the parameters
      `toNumber` and `stringify`. */
  function SerializeForApi(o: map<string, Value>, toNumber: Value -> Value, stringify: Value -> string): (r: map<string, Value>)
    ensures r.Keys == o.Keys
    ensures forall k :: k in o && !IsRewrittenKey(k) ==> r[k] == o[k]
    ensures forall k :: k in o && IsListKey(k) && o[k].Arr? ==> r[k] == Str(JoinValues(o[k].items, ", "))
    ensures forall k :: k in o && IsListKey(k) && !o[k].Arr? ==> r[k] == o[k]
    ensures "hourly_rate" in o ==>
      r["hourly_rate"] == if o["hourly_rate"] in {Str(""), Null, Undefined} then o["hourly_rate"] else toNumber(o["hourly_rate"])
    ensures "availability" in o ==>
      r["availability"] == if IsObjectType(o["availability"]) then Str(stringify(o["availability"])) else o["availability"]
  {
    var o1 := CoerceRate(o, toNumber);
    var o2 := JoinLists(o1);
    var r := StringifyAvailability(o2, stringify);
    forall k | k in o && IsListKey(k)
      ensures r[k] == o2[k] && o1[k] == o[k]
    {
    }
    forall k | k in o && !IsRewrittenKey(k)
      ensures r[k] == o[k]
    {
      assert r[k] == o2[k] && o2[k] == o1[k];
    }
    r
  }

  /** Round trip of a tag list: for non-empty, trimmed, comma-free tags, reading
      the sent field back with `asArray` gives the same tags. */
  lemma SerializeRoundTrip(o: map<string, Value>, toNumber: Value -> Value, stringify: Value -> string, k: string, tags: seq<string>)
    requires IsListKey(k) && k in o && o[k] == Arr(Strs(tags))
    requires forall i :: 0 <= i < |tags| ==> CleanTag(tags[i])
    ensures AsArray(SerializeForApi(o, toNumber, stringify)[k]) == Strs(tags)
  {
    assert SerializeForApi(o, toNumber, stringify)[k] == Str(JoinValues(Strs(tags), ", "));
    StringsStrs(tags);
    JoinedTagsReadBack(tags);
  }

  /** Clean tags joined with ", " read back through `asArray` as themselves. */
  lemma JoinedTagsReadBack(tags: seq<string>)
    requires forall i :: 0 <= i < |tags| ==> CleanTag(tags[i])
    ensures AsArray(Str(Join(tags, ", "))) == Strs(tags)
  {
    if tags == [] {
      assert Join(tags, ", ") == "";
    } else {
      JoinedTagsNonEmpty(tags);
      CsvRoundTrip(tags);
    }
  }

  lemma JoinedTagsNonEmpty(tags: seq<string>)
    requires tags != [] && tags[0] != ""
    ensures Join(tags, ", ") != ""
  {
    if |tags| >= 2 {
      JoinCsvCons(tags);
    }
  }

  /** The profile form: the stored profile, the edited copy and the flags of
      the edit/save cycle. */
  class ProfileEditor {
    var profile: map<string, Value>
    var form: map<string, Value>
    var editing: bool
    var saving: bool
    var error: string

    /** The normalised profile after a successful load. */
    constructor(loaded: map<string, Value>)
      ensures profile == loaded && form == loaded
      ensures !editing && !saving && error == ""
    {
      profile := loaded;
      form := loaded;
      editing := false;
      saving := false;
      error := "";
    }

    /** `onChange(name, value)`: only that field of the form changes. */
    method OnChange(name: string, value: Value)
      modifies this
      ensures form == old(form)[name := value]
      ensures profile == old(profile) && editing == old(editing)
      ensures saving == old(saving) && error == old(error)
    {
      form := form[name := value];
    }

    /** The Edit button. */
    method StartEdit()
      modifies this
      ensures editing
      ensures form == old(form) && profile == old(profile)
      ensures saving == old(saving) && error == old(error)
    {
      editing := true;
    }

    /** `cancelEdit`: the form goes back to the stored profile. */
    method CancelEdit()
      modifies this
      ensures form == profile && !editing
      ensures profile == old(profile) && saving == old(saving) && error == old(error)
    {
      form := profile;
      editing := false;
    }

    /** `saveAll`: sends the serialised form; on success the form becomes the
        stored profile and editing ends; on failure the error is set. The
        saving flag is cleared on both paths. */
    method SaveAll(putOk: bool, toNumber: Value -> Value, stringify: Value -> string)
      returns (wire: map<string, Value>)
      modifies this
      ensures wire == SerializeForApi(old(form), toNumber, stringify)
      ensures form == old(form) && !saving
      ensures putOk ==> profile == old(form) && !editing && error == old(error)
      ensures !putOk ==> profile == old(profile) && editing == old(editing) && error == "Failed to save"
    {
      saving := true;
      wire := SerializeForApi(form, toNumber, stringify);
      if putOk {
        profile := form;
        editing := false;
      } else {
        error := "Failed to save";
      }
      saving := false;
    }
  }

  /** The tag editor: the list it edits and the text being typed. */
  class TagsEditor {
    var value: seq<Value>
    var input: string

    constructor(value: seq<Value>)
      ensures this.value == value && input == ""
    {
      this.value := value;
      input := "";
    }

    method SetInput(t: string)
      modifies this
      ensures input == t && value == old(value)
    {
      input := t;
    }

    /** `add` */
    method Add()
      modifies this
      ensures (value, input) == TagAdd(old(value), old(input))
    {
      var next := Trim(input);
      if next == "" {
        return;
      }
      if Str(next) in value {
        input := "";
        return;
      }
      value := value + [Str(next)];
      input := "";
    }

    /** `remove(i)` */
    method Remove(i: int)
      modifies this
      ensures value == RemoveAt(old(value), i) && input == old(input)
    {
      value := RemoveAt(value, i);
    }
  }
}
