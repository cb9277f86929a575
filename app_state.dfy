/**
 * The popup's single `AppState` object: the extracted events, the index of
 * the card being edited, and a settings record.
 */
module State {
  import opened Wrappers
  import opened Records

  class AppState {
    var currentEvents: seq<Event>
    var editingEventIndex: Option<int>
    var settings: map<string, string>

    /** A fresh state: no events, nothing being edited, no settings. */
    constructor()
      ensures currentEvents == [] && editingEventIndex == None && settings == map[]
    {
      currentEvents := [];
      editingEventIndex := None;
      settings := map[];
    }

    /** `setEvents`: the list is replaced as a whole. */
    method SetEvents(events: seq<Event>)
      modifies this
      ensures currentEvents == events
      ensures editingEventIndex == old(editingEventIndex) && settings == old(settings)
    {
      currentEvents := events;
    }

    function GetEvents(): (r: seq<Event>)
      reads this
      ensures r == currentEvents
    {
      currentEvents
    }

    /** `getEvent(index)`: `currentEvents[index] || null`. An event record is
        an object, hence truthy, so only the range decides. */
    function GetEvent(index: int): (r: Option<Event>)
      reads this
      ensures r.Some? <==> 0 <= index < |currentEvents|
      ensures r.Some? ==> r.value == currentEvents[index]
    {
      if 0 <= index < |currentEvents| then Some(currentEvents[index]) else None
    }

    /** `updateEvent(index, eventData)`: a write in place when the index is
        in range, nothing otherwise. */
    method UpdateEvent(index: int, eventData: Event)
      modifies this
      ensures 0 <= index < |old(currentEvents)| ==> currentEvents == old(currentEvents)[index := eventData]
      ensures !(0 <= index < |old(currentEvents)|) ==> currentEvents == old(currentEvents)
      ensures editingEventIndex == old(editingEventIndex) && settings == old(settings)
    {
      if 0 <= index < |currentEvents| {
        currentEvents := currentEvents[index := eventData];
      }
    }

    method SetEditingIndex(index: Option<int>)
      modifies this
      ensures editingEventIndex == index
      ensures currentEvents == old(currentEvents) && settings == old(settings)
    {
      editingEventIndex := index;
    }

    function GetEditingIndex(): (r: Option<int>)
      reads this
      ensures r == editingEventIndex
    {
      editingEventIndex
    }

    /** `setSettings(settings)`: `{ ...this.settings, ...settings }`. */
    method SetSettings(s: map<string, string>)
      modifies this
      ensures settings.Keys == old(settings).Keys + s.Keys
      ensures forall k | k in s :: settings[k] == s[k]
      ensures forall k | k in old(settings) && k !in s :: settings[k] == old(settings)[k]
      ensures currentEvents == old(currentEvents) && editingEventIndex == old(editingEventIndex)
    {
      settings := settings + s;
    }

    function GetSettings(): (r: map<string, string>)
      reads this
      ensures r == settings
    {
      settings
    }

    /** `clearEvents`: no events and nothing being edited. */
    method ClearEvents()
      modifies this
      ensures currentEvents == [] && editingEventIndex == None
      ensures settings == old(settings)
    {
      currentEvents := [];
      editingEventIndex := None;
    }
  }
}

/** How the state operations combine. */
module StateProperties {
  import opened Wrappers
  import opened Records
  import opened State

  /** An in-range update is read back, and every other event and the length
      stay as they were. */
  method UpdateThenGet(s: AppState, index: int, e: Event, other: int)
    requires 0 <= index < |s.currentEvents| && other != index
    modifies s
    ensures s.GetEvent(index) == Some(e)
    ensures |s.currentEvents| == |old(s.currentEvents)|
    ensures s.GetEvent(other) == old(s.GetEvent(other))
  {
    s.UpdateEvent(index, e);
  }

  /** An out-of-range update changes nothing. */
  method UpdateOutOfRange(s: AppState, index: int, e: Event)
    requires !(0 <= index < |s.currentEvents|)
    modifies s
    ensures s.currentEvents == old(s.currentEvents)
    ensures s.GetEvent(index) == None
  {
    s.UpdateEvent(index, e);
  }

  /** Merging settings twice with the same record is merging once. */
  method SetSettingsIdempotent(st: AppState, s: map<string, string>)
    modifies st
    ensures st.settings == old(st.settings) + s
  {
    st.SetSettings(s);
    st.SetSettings(s);
  }
}
