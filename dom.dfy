/**
 * The parts of the popup document that the popup scripts read and write:
 * which panels carry the `hidden` class, the loading and error texts, the
 * cards in `#eventsList`, the status messages, the key input, and
 * `chrome.storage.sync`.
 */
module Popup {
  import opened Wrappers
  import opened Records

  /** The popup's panels, by element id. */
  datatype Panel = LoadingState | ErrorState | NoEventsState | EventsContainer | ConfigState | MainActions

  /** The five panels that show one state of the popup at a time. */
  const StatePanels: seq<Panel> := [LoadingState, ErrorState, NoEventsState, EventsContainer, ConfigState]

  /** An "Add to Calendar" button: `disabled`, text and class list. */
  datatype Button = Button(disabled: bool, text: string, classes: set<string>)

  /** A card in `#eventsList`: its `data-index`, the event it shows, whether
      it is the edit form, and its add button (view cards only). */
  datatype Card = Card(index: int, event: Event, editing: bool, button: Option<Button>)

  const AddButton := Button(false, "Add to Calendar", {"btn", "btn-primary", "btn-small", "add-to-calendar-btn"})

  /** `createEventCard(event, index, ...)` */
  function ViewCard(event: Event, index: int): Card {
    Card(index, event, false, Some(AddButton))
  }

  /** `createEditEventCard(event, index, ...)` */
  function EditCard(event: Event, index: int): Card {
    Card(index, event, true, None)
  }

  datatype NoticeKind = InfoNotice | SuccessNotice | ErrorNotice

  /** A status message as `showMessage(message, type)` shows it. */
  datatype Notice = Notice(message: string, kind: NoticeKind)

  class PopupDom {
    /** The panels that carry the `hidden` class. */
    var hidden: set<Panel>
    var loadingText: string
    var errorText: string
    /** The children of `#eventsList`, in document order. */
    var cards: seq<Card>
    /** Every status message shown, oldest first; the last one is on screen. */
    var notices: seq<Notice>
    /** The value of the API key input. */
    var apiKeyInput: string

    constructor(hidden0: set<Panel>, apiKeyInput0: string)
      ensures hidden == hidden0 && apiKeyInput == apiKeyInput0
      ensures loadingText == "" && errorText == "" && cards == [] && notices == []
    {
      hidden := hidden0;
      loadingText, errorText := "", "";
      cards, notices := [], [];
      apiKeyInput := apiKeyInput0;
    }

    /** `hideAllStates()`: add `hidden` to each of the five state panels in
        turn; the main actions are not touched. */
    method HideAllStates()
      modifies this
      ensures hidden == old(hidden) + set p | p in StatePanels
      ensures loadingText == old(loadingText) && errorText == old(errorText)
      ensures cards == old(cards) && notices == old(notices) && apiKeyInput == old(apiKeyInput)
    {
      var i := 0;
      while i < |StatePanels|
        invariant 0 <= i <= |StatePanels|
        invariant hidden == old(hidden) + set p | p in StatePanels[..i]
        invariant loadingText == old(loadingText) && errorText == old(errorText)
        invariant cards == old(cards) && notices == old(notices) && apiKeyInput == old(apiKeyInput)
      {
        assert StatePanels[..i + 1] == StatePanels[..i] + [StatePanels[i]];
        hidden := hidden + {StatePanels[i]};
        i := i + 1;
      }
      assert StatePanels[..i] == StatePanels;
    }

    /** `showMessage(message, type)`: the notice is added to the log of notices
        shown; the removal of an earlier banner and the timer are not modelled. */
    method ShowMessage(message: string, kind: NoticeKind)
      modifies this
      ensures notices == old(notices) + [Notice(message, kind)]
      ensures hidden == old(hidden) && loadingText == old(loadingText) && errorText == old(errorText)
      ensures cards == old(cards) && apiKeyInput == old(apiKeyInput)
    {
      notices := notices + [Notice(message, kind)];
    }
  }

  /** `chrome.storage.sync` as the settings scripts use it. */
  class SyncStorage {
    var items: map<string, string>

    constructor(items0: map<string, string>)
      ensures items == items0
    {
      items := items0;
    }

    /** `loadSettings()`: only the `anthropicApiKey` item is asked for. */
    method LoadSettings() returns (settings: map<string, string>)
      ensures "anthropicApiKey" in items ==> settings == map["anthropicApiKey" := items["anthropicApiKey"]]
      ensures "anthropicApiKey" !in items ==> settings == map[]
    {
      settings := map k | k in items && k == "anthropicApiKey" :: items[k];
    }

    /** `saveSettings(settings)`: the given items are written, others kept. */
    method SaveSettings(settings: map<string, string>)
      modifies this
      ensures items == old(items) + settings
    {
      items := items + settings;
    }
  }
}
