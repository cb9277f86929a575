/**
 * The popup's event handlers (`createEventHandlers`): extraction, editing
 * a card, saving or cancelling the edit, and adding an event to the
 * calendar. Everything that crosses into another context (the tab, the
 * content script, the worker, the model, the calendar) arrives as a
 * parameter holding its outcome, and the calls made are returned in order.
 */
module Handlers {
  import opened Wrappers
  import opened JsValues
  import opened Records
  import opened State
  import opened Popup
  import opened UserInterface
  import opened ExtractionService
  import opened Settings

  const ConfigureKeyMessage := "Please configure your Anthropic API key in settings first."
  const AnalyzingMessage := "Analyzing page for events..."

  /** The stored key, when it is a non-empty string. */
  function StoredKey(items: map<string, string>): Option<string> {
    if ApiKeyItem in items && items[ApiKeyItem] != "" then Some(items[ApiKeyItem]) else None
  }

  /** The worker's answer to an `extractEvents` message carrying a page
      and a key; the background worker is a separate context reached only
      by messaging. */
  type Worker = (PageContent, Json) -> Step<seq<Event>>

  /** The page request, then the worker's answer relayed back, for a popup
      that holds the key `key`. */
  function Extraction(url: Option<string>, pageReply: Result<Option<ContentResponse>, string>, key: string,
                      worker: Worker, relayError: Option<string>): (r: Step<seq<Event>>)
    ensures !IsValidWebPage(url) ==> r == Step([], Failure(InvalidPageMessage))
    ensures IsValidWebPage(url) && PageReply(pageReply).Failure? ==>
      r == Step([InjectContentScript, RequestPageContent], Failure(PageReply(pageReply).error))
    ensures r.result.Success? ==>
      && IsValidWebPage(url) && PageReply(pageReply).Success? && relayError.None?
      && r.result == worker(PageReply(pageReply).value, JString(key)).result
      && r.calls == [InjectContentScript, RequestPageContent, RequestEventExtraction]
                    + worker(PageReply(pageReply).value, JString(key)).calls
  {
    var page := ExtractPageContent(url, pageReply);
    match page.result
    case Failure(message) => Step(page.calls, Failure(message))
    case Success(content) =>
      var relayed := ExtractEvents(worker(content, JString(key)), relayError);
      Step(page.calls + relayed.calls, relayed.result)
  }

  /** `${v}` in a template literal; `toText` is `String(v)` for non-strings. */
  function Interpolated(v: Json, toText: Json -> string): string {
    if v.JString? then v.s else toText(v)
  }

  /** Views agree with the state: while the list is shown, card k shows event k. */
  predicate CardsMatch(cards: seq<Card>, events: seq<Event>) {
    |cards| == |events| && forall k | 0 <= k < |cards| :: cards[k].index == k && cards[k].event == events[k]
  }

  lemma ListedCardsMatch(cards: seq<Card>, events: seq<Event>)
    requires ListsEvents(cards, events)
    ensures CardsMatch(cards, events)
  {
    forall k | 0 <= k < |cards|
      ensures cards[k].index == k && cards[k].event == events[k]
    {
      assert cards[k] == ViewCard(events[k], k);
    }
  }

  class EventHandlers {
    const state: AppState
    const ui: UIManager
    const storage: SyncStorage

    constructor(state0: AppState, ui0: UIManager, storage0: SyncStorage)
      ensures state == state0 && ui == ui0 && storage == storage0
    {
      state, ui, storage := state0, ui0, storage0;
    }

    predicate Synced()
      reads this, state, ui, ui.dom
    {
      EventsContainer !in ui.dom.hidden ==> CardsMatch(ui.dom.cards, state.currentEvents)
    }

    /** `handleExtractEvents()` */
    method HandleExtractEvents(url: Option<string>, pageReply: Result<Option<ContentResponse>, string>,
                               worker: Worker, relayError: Option<string>)
      returns (calls: seq<Call>)
      modifies state, ui.dom
      ensures StoredKey(storage.items).None? ==>
        && calls == []
        && state.currentEvents == old(state.currentEvents)
        && ui.dom.hidden == old(ui.dom.hidden) && ui.dom.cards == old(ui.dom.cards)
        && ui.dom.notices == old(ui.dom.notices) + [Notice(ConfigureKeyMessage, ErrorNotice)]
        && ui.dom.loadingText == old(ui.dom.loadingText) && ui.dom.errorText == old(ui.dom.errorText)
      ensures StoredKey(storage.items).Some? ==>
        var outcome := Extraction(url, pageReply, StoredKey(storage.items).value, worker, relayError);
        && calls == outcome.calls
        && ui.dom.loadingText == AnalyzingMessage
        && ui.dom.notices == old(ui.dom.notices)
        && (outcome.result.Failure? ==>
              && state.currentEvents == old(state.currentEvents)
              && ui.dom.errorText == outcome.result.error
              && ui.dom.hidden == old(ui.dom.hidden) + StateSet - {ErrorState}
              && ui.dom.cards == old(ui.dom.cards))
        && (outcome.result.Success? ==> ui.dom.errorText == old(ui.dom.errorText))
        && (outcome.result.Success? && outcome.result.value == [] ==>
              && state.currentEvents == []
              && ui.dom.hidden == old(ui.dom.hidden) + StateSet - {NoEventsState}
              && ui.dom.cards == old(ui.dom.cards))
        && (outcome.result.Success? && outcome.result.value != [] ==>
              && state.currentEvents == outcome.result.value
              && ui.dom.hidden == old(ui.dom.hidden) + StateSet - {EventsContainer}
              && ListsEvents(ui.dom.cards, outcome.result.value))
      ensures state.editingEventIndex == old(state.editingEventIndex) && state.settings == old(state.settings)
      ensures ui.dom.apiKeyInput == old(ui.dom.apiKeyInput)
      ensures old(Synced()) ==> Synced()
    {
      var settings := storage.LoadSettings();
      if !("anthropicApiKey" in settings && settings["anthropicApiKey"] != "") {
        ui.dom.ShowMessage(ConfigureKeyMessage, ErrorNotice);
        return [];
      }
      calls := RunExtraction(settings["anthropicApiKey"], url, pageReply, worker, relayError);
    }

    /** `handleExtractEvents()` once a key is known: loading, then the page,
        then the worker's answer. */
    method RunExtraction(key: string, url: Option<string>, pageReply: Result<Option<ContentResponse>, string>,
                         worker: Worker, relayError: Option<string>)
      returns (calls: seq<Call>)
      modifies state, ui.dom
      ensures
        var outcome := Extraction(url, pageReply, key, worker, relayError);
        && calls == outcome.calls
        && ui.dom.loadingText == AnalyzingMessage
        && ui.dom.notices == old(ui.dom.notices)
        && (outcome.result.Failure? ==>
              && state.currentEvents == old(state.currentEvents)
              && ui.dom.errorText == outcome.result.error
              && ui.dom.hidden == old(ui.dom.hidden) + StateSet - {ErrorState}
              && ui.dom.cards == old(ui.dom.cards))
        && (outcome.result.Success? ==> ui.dom.errorText == old(ui.dom.errorText))
        && (outcome.result.Success? && outcome.result.value == [] ==>
              && state.currentEvents == []
              && ui.dom.hidden == old(ui.dom.hidden) + StateSet - {NoEventsState}
              && ui.dom.cards == old(ui.dom.cards))
        && (outcome.result.Success? && outcome.result.value != [] ==>
              && state.currentEvents == outcome.result.value
              && ui.dom.hidden == old(ui.dom.hidden) + StateSet - {EventsContainer}
              && ListsEvents(ui.dom.cards, outcome.result.value))
      ensures state.editingEventIndex == old(state.editingEventIndex) && state.settings == old(state.settings)
      ensures ui.dom.apiKeyInput == old(ui.dom.apiKeyInput)
      ensures Synced()
    {
      ui.ShowLoading(AnalyzingMessage);
      var page := ExtractPageContent(url, pageReply);
      calls := page.calls;
      ghost var outcome := Extraction(url, pageReply, key, worker, relayError);
      if page.result.Failure? {
        assert outcome == Step(calls, Failure(page.result.error));
        ui.ShowError(page.result.error);
        return;
      }
      var relayed := ExtractEvents(worker(page.result.value, JString(key)), relayError);
      calls := calls + relayed.calls;
      assert outcome == Step(calls, relayed.result);
      ShowExtracted(relayed.result);
    }

    /** The tail of `handleExtractEvents()`, once the worker has answered. */
    method ShowExtracted(result: Result<seq<Event>, string>)
      modifies state, ui.dom
      ensures ui.dom.loadingText == old(ui.dom.loadingText) && ui.dom.notices == old(ui.dom.notices)
      ensures ui.dom.apiKeyInput == old(ui.dom.apiKeyInput)
      ensures result.Success? ==> ui.dom.errorText == old(ui.dom.errorText)
      ensures result.Failure? ==>
        && state.currentEvents == old(state.currentEvents)
        && ui.dom.errorText == result.error
        && ui.dom.hidden == old(ui.dom.hidden) + StateSet - {ErrorState}
        && ui.dom.cards == old(ui.dom.cards)
      ensures result.Success? && result.value == [] ==>
        && state.currentEvents == []
        && ui.dom.hidden == old(ui.dom.hidden) + StateSet - {NoEventsState}
        && ui.dom.cards == old(ui.dom.cards)
      ensures result.Success? && result.value != [] ==>
        && state.currentEvents == result.value
        && ui.dom.hidden == old(ui.dom.hidden) + StateSet - {EventsContainer}
        && ListsEvents(ui.dom.cards, result.value)
      ensures state.editingEventIndex == old(state.editingEventIndex) && state.settings == old(state.settings)
      ensures EventsContainer in old(ui.dom.hidden) ==> Synced()
    {
      if result.Failure? {
        ui.ShowError(result.error);
        return;
      }
      var events := result.value;
      state.SetEvents(events);
      if |events| == 0 {
        ui.ShowNoEvents();
      } else {
        ui.DisplayEvents(events);
        ListedCardsMatch(ui.dom.cards, events);
      }
    }

    /** `handleEditEvent(index)`: nothing happens for an index with no event. */
    method HandleEditEvent(index: int)
      modifies state, ui.dom
      ensures old(state.GetEvent(index)).None? ==>
        state.editingEventIndex == old(state.editingEventIndex) && ui.dom.cards == old(ui.dom.cards)
      ensures old(state.GetEvent(index)).Some? ==>
        && state.editingEventIndex == Some(index)
        && (FindCard(old(ui.dom.cards), index).Some? ==>
              ui.dom.cards == old(ui.dom.cards)[FindCard(old(ui.dom.cards), index).value
                                                := EditCard(old(state.currentEvents)[index], index)])
        && (FindCard(old(ui.dom.cards), index).None? ==> ui.dom.cards == old(ui.dom.cards))
      ensures state.currentEvents == old(state.currentEvents) && ui.dom.hidden == old(ui.dom.hidden)
      ensures state.settings == old(state.settings)
      ensures ui.dom.loadingText == old(ui.dom.loadingText) && ui.dom.errorText == old(ui.dom.errorText)
      ensures ui.dom.notices == old(ui.dom.notices) && ui.dom.apiKeyInput == old(ui.dom.apiKeyInput)
      ensures old(Synced()) ==> Synced()
    {
      var event := state.GetEvent(index);
      if event.None? {
        return;
      }
      state.SetEditingIndex(Some(index));
      ui.ShowEventEditMode(event.value, index);
    }

    /** `handleSaveEdit(index, updatedEvent)`: store, stop editing, show. */
    method HandleSaveEdit(index: int, updatedEvent: Event)
      modifies state, ui.dom
      ensures 0 <= index < |old(state.currentEvents)| ==> state.currentEvents == old(state.currentEvents)[index := updatedEvent]
      ensures !(0 <= index < |old(state.currentEvents)|) ==> state.currentEvents == old(state.currentEvents)
      ensures state.editingEventIndex == None
      ensures FindCard(old(ui.dom.cards), index).Some? ==>
        ui.dom.cards == old(ui.dom.cards)[FindCard(old(ui.dom.cards), index).value := ViewCard(updatedEvent, index)]
      ensures FindCard(old(ui.dom.cards), index).None? ==> ui.dom.cards == old(ui.dom.cards)
      ensures ui.dom.hidden == old(ui.dom.hidden)
      ensures state.settings == old(state.settings)
      ensures ui.dom.loadingText == old(ui.dom.loadingText) && ui.dom.errorText == old(ui.dom.errorText)
      ensures ui.dom.notices == old(ui.dom.notices) && ui.dom.apiKeyInput == old(ui.dom.apiKeyInput)
      ensures old(Synced()) ==> Synced()
    {
      state.UpdateEvent(index, updatedEvent);
      state.SetEditingIndex(None);
      var _ := ui.ShowEventViewMode(Some(updatedEvent), index);
    }

    /** `handleCancelEdit(index)`: stop editing and show the stored event
        again. With no stored event but a card for the index, building the
        card throws. */
    method HandleCancelEdit(index: int) returns (r: Result<(), JsError>)
      modifies state, ui.dom
      ensures state.currentEvents == old(state.currentEvents) && state.editingEventIndex == None
      ensures r.Failure? <==> old(state.GetEvent(index)).None? && FindCard(old(ui.dom.cards), index).Some?
      ensures old(state.GetEvent(index)).Some? && FindCard(old(ui.dom.cards), index).Some? ==>
        ui.dom.cards == old(ui.dom.cards)[FindCard(old(ui.dom.cards), index).value
                                          := ViewCard(old(state.currentEvents)[index], index)]
      ensures r.Failure? || FindCard(old(ui.dom.cards), index).None? ==> ui.dom.cards == old(ui.dom.cards)
      ensures ui.dom.hidden == old(ui.dom.hidden)
      ensures state.settings == old(state.settings)
      ensures ui.dom.loadingText == old(ui.dom.loadingText) && ui.dom.errorText == old(ui.dom.errorText)
      ensures ui.dom.notices == old(ui.dom.notices) && ui.dom.apiKeyInput == old(ui.dom.apiKeyInput)
      ensures old(Synced()) && EventsContainer !in old(ui.dom.hidden) ==> r.Success?
      ensures old(Synced()) ==> Synced()
    {
      var event := state.GetEvent(index);
      state.SetEditingIndex(None);
      r := ui.ShowEventViewMode(event, index);
    }

    /** `handleAddToCalendar(index, button)`; `reply` is the worker's answer:
        the event's link when it has one, or the error message. */
    method HandleAddToCalendar(index: int, reply: Result<Option<string>, string>, toText: Json -> string)
      returns (calls: seq<Call>)
      modifies ui.dom
      ensures old(state.GetEvent(index)).None? ==>
        calls == [] && ui.dom.cards == old(ui.dom.cards) && ui.dom.notices == old(ui.dom.notices)
      ensures old(state.GetEvent(index)).Some? ==>
        var event := state.currentEvents[index];
        && (reply.Success? ==>
              && calls == [CalendarRequest(event)] + (if reply.value.Some? && reply.value.value != ""
                                                      then [OpenTab(reply.value.value)] else [])
              && ui.dom.notices == old(ui.dom.notices)
                   + [Notice("Event \"" + Interpolated(event.title, toText) + "\" added to your calendar!", SuccessNotice)])
        && (reply.Failure? ==>
              && calls == [CalendarRequest(event)]
              && ui.dom.notices == old(ui.dom.notices) + [Notice("Error: " + reply.error, ErrorNotice)])
      ensures old(state.GetEvent(index)).Some? && FindButton(old(ui.dom.cards), index).Some? ==>
        var k := FindButton(old(ui.dom.cards), index).value;
        var b := old(ui.dom.cards)[k].button.value;
        ui.dom.cards == old(ui.dom.cards)[k := old(ui.dom.cards)[k].(button := Some(
          ButtonAfter(ButtonAfter(b, "loading"), if reply.Success? then "success" else "error")))]
      ensures FindButton(old(ui.dom.cards), index).None? ==> ui.dom.cards == old(ui.dom.cards)
      ensures ui.dom.loadingText == old(ui.dom.loadingText) && ui.dom.errorText == old(ui.dom.errorText)
      ensures ui.dom.apiKeyInput == old(ui.dom.apiKeyInput)
      ensures |ui.dom.cards| == |old(ui.dom.cards)|
      ensures forall k | 0 <= k < |ui.dom.cards| ::
        ui.dom.cards[k].index == old(ui.dom.cards)[k].index && ui.dom.cards[k].event == old(ui.dom.cards)[k].event
      ensures ui.dom.hidden == old(ui.dom.hidden)
      ensures old(Synced()) ==> Synced()
    {
      var event := state.GetEvent(index);
      if event.None? {
        return [];
      }
      ghost var before := ui.dom.cards;
      ui.UpdateAddToCalendarButton(index, "loading");
      if FindButton(before, index).Some? {
        FindButtonAfterRestyle(before, index, ButtonAfter(before[FindButton(before, index).value].button.value, "loading"));
      }
      calls := [CalendarRequest(event.value)];
      match reply {
        case Success(link) =>
          ui.UpdateAddToCalendarButton(index, "success");
          ui.dom.ShowMessage("Event \"" + Interpolated(event.value.title, toText) + "\" added to your calendar!", SuccessNotice);
          if link.Some? && link.value != "" {
            calls := calls + [OpenTab(link.value)];
          }
        case Failure(message) =>
          ui.UpdateAddToCalendarButton(index, "error");
          ui.dom.ShowMessage("Error: " + message, ErrorNotice);
      }
    }
  }
}

module HandlersProperties {
  import opened Wrappers
  import opened JsValues
  import opened Records
  import opened State
  import opened Popup
  import opened UserInterface
  import opened UserInterfaceProperties
  import opened ExtractionService
  import opened PromptBuilder
  import opened ResponseParser
  import BackgroundWorker
  import opened Handlers

  /** The background worker of this extension, as the popup reaches it. */
  function Background(stringify: Json -> string, modelReply: Result<string, string>, parse: string -> Option<Json>): (w: Worker)
    ensures forall page, key :: w(page, key) == BackgroundWorker.HandleExtractEvents(page, key, stringify, modelReply, parse)
  {
    (page: PageContent, key: Json) => BackgroundWorker.HandleExtractEvents(page, key, stringify, modelReply, parse)
  }

  /** A key the popup holds is never refused by the worker: exactly one
      model request goes out, with the prompt built from the page. */
  lemma StoredKeyReachesModel(items: map<string, string>, page: PageContent, stringify: Json -> string,
                              modelReply: Result<string, string>, parse: string -> Option<Json>)
    requires StoredKey(items).Some?
    ensures Background(stringify, modelReply, parse)(page, JString(StoredKey(items).value)).calls
            == [ModelRequest(BuildPrompt(page, stringify))]
  {
    assert Truthy(JString(StoredKey(items).value));
  }

  /** The worker answers with events only for a truthy key and a model
      reply that parses, after one model request. */
  lemma WorkerEventsFromModel(page: PageContent, key: string, stringify: Json -> string,
                              modelReply: Result<string, string>, parse: string -> Option<Json>)
    requires BackgroundWorker.HandleExtractEvents(page, JString(key), stringify, modelReply, parse).result.Success?
    ensures key != "" && modelReply.Success?
    ensures ParseClaudeResponse(modelReply.value, parse)
            == Success(BackgroundWorker.HandleExtractEvents(page, JString(key), stringify, modelReply, parse).result.value)
    ensures BackgroundWorker.HandleExtractEvents(page, JString(key), stringify, modelReply, parse).calls
            == [ModelRequest(BuildPrompt(page, stringify))]
  {
    assert Truthy(JString(key));
  }

  /** Events reach the popup only from a parsed model reply, after the page
      was read and the worker asked once. */
  lemma ExtractedEventsComeFromModel(url: Option<string>, pageReply: Result<Option<ContentResponse>, string>, key: string,
                                     stringify: Json -> string, modelReply: Result<string, string>,
                                     parse: string -> Option<Json>, relayError: Option<string>)
    requires Extraction(url, pageReply, key, Background(stringify, modelReply, parse), relayError).result.Success?
    ensures key != "" && modelReply.Success?
    ensures ParseClaudeResponse(modelReply.value, parse)
            == Success(Extraction(url, pageReply, key, Background(stringify, modelReply, parse), relayError).result.value)
    ensures Extraction(url, pageReply, key, Background(stringify, modelReply, parse), relayError).calls
            == [InjectContentScript, RequestPageContent, RequestEventExtraction,
                ModelRequest(BuildPrompt(PageReply(pageReply).value, stringify))]
  {
    WorkerEventsFromModel(PageReply(pageReply).value, key, stringify, modelReply, parse);
  }

  /** A messaging error on the way back from the worker is what the popup
      reports, whatever the worker did. */
  lemma RelayErrorReported(url: Option<string>, pageReply: Result<Option<ContentResponse>, string>, key: string,
                           worker: Worker, message: string)
    requires IsValidWebPage(url) && PageReply(pageReply).Success?
    ensures Extraction(url, pageReply, key, worker, Some(message))
            == Step([InjectContentScript, RequestPageContent, RequestEventExtraction]
                    + worker(PageReply(pageReply).value, JString(key)).calls, Failure(message))
  {
  }

  /** In a list of cards numbered by position, the card for `i` is found at `i`. */
  lemma {:induction false} FoundAt(cards: seq<Card>, index: int)
    requires 0 <= index < |cards|
    requires forall k | 0 <= k < |cards| :: cards[k].index == k
    ensures FindCard(cards, index) == Some(index as nat)
  {
    var r := FindCard(cards, index);
    assert cards[index].index == index;
    if r.Some? {
      assert cards[r.value].index == r.value;
    }
  }

  /** Editing a listed event and cancelling restores the list exactly. */
  method EditThenCancel(h: EventHandlers, index: int)
    requires ListsEvents(h.ui.dom.cards, h.state.currentEvents) && 0 <= index < |h.state.currentEvents|
    modifies h.state, h.ui.dom
    ensures h.ui.dom.cards == old(h.ui.dom.cards) && h.state.currentEvents == old(h.state.currentEvents)
    ensures h.state.editingEventIndex == None
  {
    ghost var cards, events := h.ui.dom.cards, h.state.currentEvents;
    FoundAt(cards, index);
    h.HandleEditEvent(index);
    assert h.ui.dom.cards == cards[index := EditCard(events[index], index)];
    FoundAt(h.ui.dom.cards, index);
    var r := h.HandleCancelEdit(index);
    assert h.ui.dom.cards == cards[index := ViewCard(events[index], index)];
    assert cards[index] == ViewCard(events[index], index);
  }

  /** Editing a listed event and saving lists the updated events. */
  method EditThenSave(h: EventHandlers, index: int, updated: Event)
    requires ListsEvents(h.ui.dom.cards, h.state.currentEvents) && 0 <= index < |h.state.currentEvents|
    modifies h.state, h.ui.dom
    ensures h.state.currentEvents == old(h.state.currentEvents)[index := updated]
    ensures ListsEvents(h.ui.dom.cards, h.state.currentEvents)
    ensures h.state.editingEventIndex == None
  {
    ghost var cards, events := h.ui.dom.cards, h.state.currentEvents;
    FoundAt(cards, index);
    h.HandleEditEvent(index);
    FoundAt(h.ui.dom.cards, index);
    h.HandleSaveEdit(index, updated);
    assert h.ui.dom.cards == cards[index := ViewCard(updated, index)];
  }
}
