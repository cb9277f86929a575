/**
 * The conversion in `handleAddToCalendar` from an event record to the body
 * of a Google Calendar insert request. The time zone the browser reports
 * is a parameter; the request itself and the OAuth token are not modelled.
 */
module CalendarPayload {
  import opened Wrappers
  import opened JsValues
  import opened Text
  import opened Records

  /** `{ date }` or `{ dateTime, timeZone }`. */
  datatype When = DateOnly(date: string) | Timed(dateTime: Json, timeZone: string)

  /** `calendarEvent`; `None` for a `start` or `end` that was never assigned. */
  datatype CalendarEvent = CalendarEvent(
    summary: Json,
    description: Json,
    location: Json,
    start: Option<When>,
    end: Option<When>)

  /** `v ? v.split('T')[0] : null`: the date part of a truthy string, `None`
      for a falsy value, and a TypeError for a truthy value with no `split`. */
  function DatePart(v: Json): (r: Result<Option<string>, JsError>)
    ensures !Truthy(v) ==> r == Success(None)
    ensures Truthy(v) && !v.JString? ==> r == Failure(TypeError)
    ensures Truthy(v) && v.JString? ==>
      && r.Success? && r.value.Some? && StartsWith(v.s, r.value.value)
      && 'T' !in r.value.value && (|r.value.value| < |v.s| ==> v.s[|r.value.value|] == 'T')
  {
    if !Truthy(v) then Success(None)
    else if v.JString? then Success(Some(BeforeFirst(v.s, 'T')))
    else Failure(TypeError)
  }

  /** A date part as the truthiness test `if (startDate)` sees it. */
  predicate Present(d: Option<string>) {
    d.Some? && d.value != []
  }

  /** Builds `calendarEvent` the way the worker does: copy the three text
      fields, then assign `start` and `end` according to `allDay`. */
  method BuildCalendarEvent(ev: Event, timeZone: string) returns (r: Result<CalendarEvent, JsError>)
    ensures r.Failure? <==>
      Truthy(ev.allDay) && (DatePart(ev.startDateTime).Failure? || DatePart(ev.endDateTime).Failure?)
    ensures r.Success? ==>
      && r.value.summary == ev.title
      && r.value.description == ev.description
      && r.value.location == ev.location
      && (r.value.start.None? <==> r.value.end.None?)
    ensures r.Success? && Truthy(ev.allDay) ==>
      var s, e := DatePart(ev.startDateTime).value, DatePart(ev.endDateTime).value;
      && (r.value.start.Some? <==> Present(s))
      && (Present(s) ==> r.value.start == Some(DateOnly(s.value)))
      && (Present(s) && Present(e) ==> r.value.end == Some(DateOnly(e.value)))
      && (Present(s) && !Present(e) ==> r.value.end == Some(DateOnly(s.value)))
    ensures r.Success? && !Truthy(ev.allDay) ==>
      && (r.value.start.Some? <==> Truthy(ev.startDateTime))
      && (Truthy(ev.startDateTime) ==>
            && r.value.start == Some(Timed(ev.startDateTime, timeZone))
            && r.value.end == Some(Timed(if Truthy(ev.endDateTime) then ev.endDateTime else ev.startDateTime, timeZone)))
  {
    var calendarEvent := CalendarEvent(ev.title, ev.description, ev.location, None, None);
    if Truthy(ev.allDay) {
      var startDate := DatePart(ev.startDateTime);
      if startDate.Failure? {
        return Failure(startDate.error);
      }
      var endDate := DatePart(ev.endDateTime);
      if endDate.Failure? {
        return Failure(endDate.error);
      }
      if Present(startDate.value) {
        calendarEvent := calendarEvent.(start := Some(DateOnly(startDate.value.value)));
        var end := if Present(endDate.value) then endDate.value.value else startDate.value.value;
        calendarEvent := calendarEvent.(end := Some(DateOnly(end)));
      }
    } else {
      if Truthy(ev.startDateTime) {
        calendarEvent := calendarEvent.(start := Some(Timed(ev.startDateTime, timeZone)));
        calendarEvent := calendarEvent.(end := Some(Timed(OrElse(Some(ev.endDateTime), ev.startDateTime), timeZone)));
      }
    }
    return Success(calendarEvent);
  }
}

/** The date part of ISO 8601 text, and the example of an all-day event. */
module CalendarPayloadProperties {
  import opened Wrappers
  import opened JsValues
  import opened Text
  import opened Records
  import opened CalendarPayload

  /** Splitting `date + "T" + time` at the first 'T' gives back the date
      whenever the date holds no 'T'. */
  lemma {:induction false} DateOfDateTime(date: string, time: string)
    requires 'T' !in date
    ensures BeforeFirst(date + ['T'] + time, 'T') == date
    decreases |date|
  {
    if date != [] {
      assert (date + ['T'] + time)[1..] == date[1..] + ['T'] + time;
      DateOfDateTime(date[1..], time);
    }
  }

  /** Text without a 'T' is its own date part. */
  lemma {:induction false} DateWithoutTime(date: string)
    requires 'T' !in date
    ensures BeforeFirst(date, 'T') == date
    decreases |date|
  {
    if date != [] {
      DateWithoutTime(date[1..]);
    }
  }

  /** The date part of ISO 8601 date-time text is its date. */
  lemma DatePartOfDateTime(date: string, time: string)
    requires date != [] && 'T' !in date
    ensures DatePart(JString(date + ['T'] + time)) == Success(Some(date))
  {
    DateOfDateTime(date, time);
  }

  /** An all-day event starting "2024-05-01T00:00:00" with no end is booked
      on 2024-05-01 from start to end. */
  method AllDayExample() returns (r: Result<CalendarEvent, JsError>)
    ensures r == Success(CalendarEvent(JString("Talk"), JString(""), JString(""),
                                       Some(DateOnly("2024-05-01")), Some(DateOnly("2024-05-01"))))
  {
    var date, time := "2024-05-01", "00:00:00";
    DatePartOfDateTime(date, time);
    var ev := Event(JString("Talk"), JString(""), JString(""), JString(date + ['T'] + time), JNull, JBool(true));
    r := BuildCalendarEvent(ev, "Europe/Paris");
  }
}
