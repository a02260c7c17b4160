/** A mentor's availability calendar: slots loaded as coloured events,
    slots created by selecting a range or clicking a time, and deletion,
    which is refused for booked slots. */
module AvailabilityCalendar {
  import opened Js

  /** One calendar event. */
  datatype Event = Event(id: Value, start: Value, end: Value, title: string,
                         background: string, border: string, status: Value)

  /** The event drawn for one slot from the server: an available slot is
      blue and titled "Available", every other one red and "Booked". */
  function EventOf(s: Value): (e: Event)
    ensures e.id == Prop(s, "id") && e.start == Prop(s, "start_time") && e.end == Prop(s, "end_time")
    ensures e.status == Prop(s, "status")
    ensures e.title == "Available" <==> Prop(s, "status") == Str("available")
    ensures e.title == "Available" ==> e.background == "#cfe8ff" && e.border == "#007bff"
    ensures e.title != "Available" ==> e.title == "Booked" && e.background == "#f8d7da" && e.border == "#dc3545"
  {
    var available := Prop(s, "status") == Str("available");
    Event(Prop(s, "id"), Prop(s, "start_time"), Prop(s, "end_time"),
      if available then "Available" else "Booked",
      if available then "#cfe8ff" else "#f8d7da",
      if available then "#007bff" else "#dc3545",
      Prop(s, "status"))
  }

  /** `data.map(toEvent)`: `None` when it throws, for data that is not an
      array or holds `null` or `undefined`. */
  function ToEvents(data: Value): (r: Option<seq<Event>>)
    ensures !data.Arr? ==> r.None?
    ensures data.Arr? && r.Some? ==> |r.value| == |data.items|
    ensures data.Arr? && r.Some? ==> forall i :: 0 <= i < |r.value| ==> r.value[i] == EventOf(data.items[i])
    ensures data.Arr? ==> (r.None? <==> exists i :: 0 <= i < |data.items| && Nullish(data.items[i]))
  {
    if data.Arr? then MapEntries(data.items, EventOf) else None
  }

  const HourMs := 60 * 60 * 1000

  /** A click on the grid creates a slot of one hour from the clicked
      instant, in milliseconds. */
  function OneHourSlot(start: int): (r: (int, int))
    ensures r.0 == start && r.1 - r.0 == 3_600_000
  {
    (start, start + HourMs)
  }

  /** Only an event whose status is "available" may be deleted. */
  predicate Deletable(e: Event)
  {
    e.status == Str("available")
  }

  /** A slot's event can be deleted exactly when it is drawn as available,
      so a booked slot is never deleted from the calendar. */
  lemma DeletableIffAvailable(s: Value)
    ensures Deletable(EventOf(s)) <==> EventOf(s).title == "Available"
    ensures Prop(s, "status") == Str("booked") ==> !Deletable(EventOf(s))
  {
  }

  /** The requests the calendar sends. */
  datatype Request = CreateSlot(startTime: Value, endTime: Value) | DeleteSlot(id: Value) | LoadSlots

  const CreateFailed := "Failed to create slot."
  const DeleteFailed := "Failed to delete slot."
  const BookedRefused := "Cannot delete booked slots."

  class Calendar {
    var events: seq<Event>

    constructor()
      ensures events == []
    {
      events := [];
    }

    /** `load`: the answer replaces the events when it maps; a failed
        request (`None`) or one whose data does not map leaves them. */
    method Load(answer: Option<Value>) returns (req: Request)
      modifies this
      ensures req == LoadSlots
      ensures answer.Some? && ToEvents(answer.value).Some? ==> events == ToEvents(answer.value).value
      ensures answer.None? || ToEvents(answer.value).None? ==> events == old(events)
    {
      req := LoadSlots;
      if answer.Some? {
        var mapped := ToEvents(answer.value);
        if mapped.Some? {
          events := mapped.value;
        }
      }
    }

    /** Creating a slot once confirmed: the post, then a reload on success;
        an alert when the post fails. */
    method Create(startTime: Value, endTime: Value, confirmed: bool, postOk: bool, reloaded: Option<Value>)
      returns (reqs: seq<Request>, alert: Option<string>)
      modifies this
      ensures !confirmed ==> reqs == [] && alert.None? && events == old(events)
      ensures confirmed && !postOk ==>
        reqs == [CreateSlot(startTime, endTime)] && alert == Some(CreateFailed) && events == old(events)
      ensures confirmed && postOk ==> reqs == [CreateSlot(startTime, endTime), LoadSlots] && alert.None?
      ensures confirmed && postOk && reloaded.Some? && ToEvents(reloaded.value).Some? ==>
        events == ToEvents(reloaded.value).value
      ensures confirmed && postOk && (reloaded.None? || ToEvents(reloaded.value).None?) ==> events == old(events)
    {
      alert := None;
      if !confirmed {
        reqs := [];
        return;
      }
      reqs := [CreateSlot(startTime, endTime)];
      if postOk {
        var r := Load(reloaded);
        reqs := reqs + [r];
      } else {
        alert := Some(CreateFailed);
      }
    }

    /** `handleDateClick`: a one-hour slot from the clicked instant. */
    method DateClick(start: int, confirmed: bool, postOk: bool, reloaded: Option<Value>)
      returns (reqs: seq<Request>, alert: Option<string>)
      modifies this
      ensures !confirmed ==> reqs == [] && alert.None? && events == old(events)
      ensures confirmed && !postOk ==>
        reqs == [CreateSlot(Num(start), Num(start + 3_600_000))] && alert == Some(CreateFailed) && events == old(events)
      ensures confirmed && postOk ==>
        reqs == [CreateSlot(Num(start), Num(start + 3_600_000)), LoadSlots] && alert.None?
      ensures confirmed && postOk && reloaded.Some? && ToEvents(reloaded.value).Some? ==>
        events == ToEvents(reloaded.value).value
      ensures confirmed && postOk && (reloaded.None? || ToEvents(reloaded.value).None?) ==> events == old(events)
    {
      var slot := OneHourSlot(start);
      reqs, alert := Create(Num(slot.0), Num(slot.1), confirmed, postOk, reloaded);
    }

    /** `handleEventClick`: an event that is not available is refused with
        an alert and nothing is asked or sent; otherwise, once confirmed,
        the delete is sent and the events are loaded again. */
    method EventClick(e: Event, confirmed: bool, deleteOk: bool, reloaded: Option<Value>)
      returns (reqs: seq<Request>, alert: Option<string>)
      modifies this
      ensures !Deletable(e) ==> reqs == [] && alert == Some(BookedRefused) && events == old(events)
      ensures Deletable(e) && !confirmed ==> reqs == [] && alert.None? && events == old(events)
      ensures Deletable(e) && confirmed && !deleteOk ==>
        reqs == [DeleteSlot(e.id)] && alert == Some(DeleteFailed) && events == old(events)
      ensures Deletable(e) && confirmed && deleteOk ==> reqs == [DeleteSlot(e.id), LoadSlots] && alert.None?
      ensures Deletable(e) && confirmed && deleteOk && reloaded.Some? && ToEvents(reloaded.value).Some? ==>
        events == ToEvents(reloaded.value).value
      ensures Deletable(e) && confirmed && deleteOk && (reloaded.None? || ToEvents(reloaded.value).None?) ==>
        events == old(events)
      ensures DeleteSlot(e.id) in reqs ==> Deletable(e)
    {
      alert := None;
      reqs := [];
      if !Deletable(e) {
        alert := Some(BookedRefused);
        return;
      }
      if !confirmed {
        return;
      }
      reqs := [DeleteSlot(e.id)];
      if deleteOk {
        var r := Load(reloaded);
        reqs := reqs + [r];
      } else {
        alert := Some(DeleteFailed);
      }
    }
  }
}
