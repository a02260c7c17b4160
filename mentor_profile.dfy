/** A mentor's public profile: the skill chips, read from either a
    comma-separated string or an array, and the slot booking panel. */
module MentorProfile {
  import opened Seqs
  import opened Text
  import opened Js
  import Profile

  /** The values of an array that `String(s).trim()` turns into chips. */
  function TrimEach(vs: seq<Value>): (r: seq<string>)
    ensures |r| == |vs|
    ensures forall i :: 0 <= i < |vs| ==> r[i] == Trim(ToString(vs[i]))
  {
    seq(|vs|, i requires 0 <= i < |vs| => Trim(ToString(vs[i])))
  }

  /** The `skills` memo: [] when absent, the truthy entries of an array,
      trimmed, and otherwise the trimmed non-empty comma pieces of the text. */
  function Skills(raw: Value): (r: seq<string>)
    ensures !Truthy(raw) ==> r == []
    ensures raw.Arr? ==> r == TrimEach(Filter(raw.items, Truthy))
    ensures Truthy(raw) && !raw.Arr? ==> r == CsvPieces(ToString(raw))
    ensures forall i :: 0 <= i < |r| ==> IsTrimmed(r[i])
  {
    if !Truthy(raw) then []
    else if raw.Arr? then
      TrimEach(Filter(raw.items, Truthy))
    else
      var r := CsvPieces(ToString(raw));
      assert forall i :: 0 <= i < |r| ==> IsTrimmed(r[i]) by {
        forall i | 0 <= i < |r| ensures IsTrimmed(r[i]) {
          assert r[i] in r;
        }
      }
      r
  }

  /** An array of clean tags gives back exactly those tags, in order. */
  lemma {:induction false} SkillsOfCleanArray(tags: seq<string>)
    requires forall i :: 0 <= i < |tags| ==> CleanTag(tags[i])
    ensures Skills(Arr(Strs(tags))) == tags
  {
    var vs := Strs(tags);
    forall x | x in vs ensures Truthy(x) {
      var i :| 0 <= i < |vs| && vs[i] == x;
    }
    FilterAll(vs, Truthy);
    var r := TrimEach(vs);
    forall i | 0 <= i < |tags|
      ensures r[i] == tags[i]
    {
      assert ToString(vs[i]) == tags[i];
      TrimTrimmed(tags[i]);
    }
    assert r == tags;
  }

  /** For text the chips are the pieces that the profile editor's `asArray`
      reads from the same text. */
  lemma SkillsOfTextAgree(raw: Value)
    requires Truthy(raw) && !raw.Arr?
    ensures Strs(Skills(raw)) == Profile.AsArray(raw)
  {
  }

  /** An array entry made only of white space is truthy, so it survives the
      filter and becomes an empty chip; in text the same entry is dropped. */
  lemma BlankArrayEntryKept(blank: string)
    requires blank != "" && forall k :: 0 <= k < |blank| ==> IsSpace(blank[k])
    ensures Skills(Arr([Str(blank)])) == [""]
    ensures Skills(Str(blank)) == []
  {
    assert ',' !in blank;
    TrimBlank(blank);
    assert Filter([Str(blank)], Truthy) == [Str(blank)];
    assert TrimEach([Str(blank)]) == [""];
    CsvSingle(blank);
  }

  /** A bookable slot. Times are opaque instants. */
  datatype Slot = Slot(id: string, startTime: int, endTime: int)

  /** The body of `POST /sessions/book`. */
  datatype BookRequest = BookRequest(mentorId: string, startTime: int, endTime: int)

  /** The banner above the slots: shown when `text` is truthy. */
  datatype Notice = Notice(kind: string, text: Value)

  /** How the booking request ended: accepted, or rejected with the error
      object the client received. */
  datatype Outcome = Booked | Rejected(err: Value)

  const Cleared := Notice("", Str(""))
  const BookedText := "Session booked! Check it under My Sessions."
  const FallbackText := "Unable to book this slot. Please try another."

  /** `slots.find((s) => s.id === slotId)`: the first slot with that id. */
  function FindSlot(slots: seq<Slot>, slotId: string): (r: Option<Slot>)
    ensures r.None? <==> forall i :: 0 <= i < |slots| ==> slots[i].id != slotId
    ensures r.Some? ==> exists i :: (0 <= i < |slots| && slots[i] == r.value && r.value.id == slotId
      && forall j :: 0 <= j < i ==> slots[j].id != slotId)
    decreases |slots|
  {
    if slots == [] then None
    else if slots[0].id == slotId then Some(slots[0])
    else
      var r := FindSlot(slots[1..], slotId);
      assert r.Some? ==> exists i :: (0 <= i < |slots| && slots[i] == r.value && r.value.id == slotId
        && forall j :: 0 <= j < i ==> slots[j].id != slotId) by {
        if r.Some? {
          var i :| 0 <= i < |slots[1..]| && slots[1..][i] == r.value && r.value.id == slotId
            && forall j :: 0 <= j < i ==> slots[1..][j].id != slotId;
          assert slots[i + 1] == slots[1..][i];
          forall j | 0 <= j < i + 1 ensures slots[j].id != slotId {
            if j > 0 {
              assert slots[j] == slots[1..][j - 1];
            }
          }
        }
      }
      r
  }

  function Other(slotId: string): Slot -> bool
  {
    (s: Slot) => s.id != slotId
  }

  /** After a booking the slots with that id are gone and the others stay in
      order. */
  lemma RemoveBookedSpec(slots: seq<Slot>, slotId: string)
    ensures IsSubseq(Filter(slots, Other(slotId)), slots)
    ensures forall s :: s in Filter(slots, Other(slotId)) <==> s in slots && s.id != slotId
    ensures FindSlot(Filter(slots, Other(slotId)), slotId).None?
  {
    FilterSpec(slots, Other(slotId));
    var r := Filter(slots, Other(slotId));
    assert forall i :: 0 <= i < |r| ==> r[i].id != slotId by {
      forall i | 0 <= i < |r| ensures r[i].id != slotId {
        assert r[i] in r;
      }
    }
  }

  /** The booking panel of the page. */
  class BookingPanel {
    const mentorId: string
    var slots: seq<Slot>
    var booking: Option<string>
    var notice: Notice

    /** The page once the mentor's open slots have loaded. */
    constructor(mentorId: string, loaded: seq<Slot>)
      ensures this.mentorId == mentorId && slots == loaded
      ensures booking.None? && notice == Cleared
    {
      this.mentorId := mentorId;
      slots := loaded;
      booking := None;
      notice := Cleared;
    }

    /** `bookSlot` up to its `await`: the notice is cleared and the slot
        marked as booking; an unknown slot ends the handler with the fallback
        error and no request. */
    method Begin(slotId: string) returns (req: Option<BookRequest>)
      modifies this
      ensures slots == old(slots)
      ensures FindSlot(slots, slotId).None? ==>
        req.None? && booking.None? && notice == Notice("error", Str(FallbackText))
      ensures FindSlot(slots, slotId).Some? ==>
        && req == Some(BookRequest(mentorId, FindSlot(slots, slotId).value.startTime, FindSlot(slots, slotId).value.endTime))
        && booking == Some(slotId) && notice == Cleared
    {
      notice := Cleared;
      booking := Some(slotId);
      var slot := FindSlot(slots, slotId);
      if slot.None? {
        var thrown := Obj(map["message" := Str("Slot not found")]);
        ClientErrorText("Slot not found", FallbackText);
        notice := Notice("error", ErrorText(thrown, FallbackText));
        booking := None;
        req := None;
      } else {
        req := Some(BookRequest(mentorId, slot.value.startTime, slot.value.endTime));
      }
    }

    /** `bookSlot` after its `await`: on success the slot leaves the list and
        the success banner shows; on failure the list stays and the error
        banner shows. Either way nothing is marked as booking any more. */
    method Finish(slotId: string, outcome: Outcome)
      modifies this
      ensures booking.None?
      ensures outcome.Booked? ==>
        slots == Filter(old(slots), Other(slotId)) && notice == Notice("success", Str(BookedText))
      ensures outcome.Rejected? ==>
        slots == old(slots) && notice == Notice("error", ErrorText(outcome.err, FallbackText))
    {
      if outcome.Booked? {
        slots := Filter(slots, Other(slotId));
        notice := Notice("success", Str(BookedText));
      } else {
        notice := Notice("error", ErrorText(outcome.err, FallbackText));
      }
      booking := None;
    }

    /** The whole handler, for a request that ends with `outcome`. */
    method BookSlot(slotId: string, outcome: Outcome) returns (req: Option<BookRequest>)
      modifies this
      ensures booking.None?
      ensures req.None? <==> FindSlot(old(slots), slotId).None?
      ensures req.None? ==> slots == old(slots) && notice == Notice("error", Str(FallbackText))
      ensures req.Some? && outcome.Booked? ==>
        slots == Filter(old(slots), Other(slotId)) && notice == Notice("success", Str(BookedText))
      ensures req.Some? && outcome.Rejected? ==> slots == old(slots) && notice == Notice("error", ErrorText(outcome.err, FallbackText))
    {
      req := Begin(slotId);
      if req.Some? {
        Finish(slotId, outcome);
      }
    }
  }
}
