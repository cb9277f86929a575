/**
 * `UIManager`: the state panels of the popup, the list of event cards, and
 * the "Add to Calendar" buttons. Card markup is not modelled; a card is
 * its index, its event and its kind.
 */
module UserInterface {
  import opened Wrappers
  import opened JsValues
  import opened Records
  import opened Popup

  const StateSet := set p | p in StatePanels

  /** `document.querySelector('.event-card[data-index="i"]')`: the first
      card, in document order, with that index. */
  function FindCard(cards: seq<Card>, index: int): (r: Option<nat>)
    ensures r.Some? ==> r.value < |cards| && cards[r.value].index == index
    ensures r.Some? ==> forall k | 0 <= k < r.value :: cards[k].index != index
    ensures r.None? ==> forall k | 0 <= k < |cards| :: cards[k].index != index
  {
    if cards == [] then None
    else if cards[0].index == index then Some(0)
    else
      match FindCard(cards[1..], index)
      case None => None
      case Some(k) => Some(k + 1)
  }

  /** `document.querySelector('.add-to-calendar-btn[data-index="i"]')`: the
      first card with that index that has an add button. */
  function FindButton(cards: seq<Card>, index: int): (r: Option<nat>)
    ensures r.Some? ==> r.value < |cards| && cards[r.value].index == index && cards[r.value].button.Some?
    ensures r.Some? ==> forall k | 0 <= k < r.value :: !(cards[k].index == index && cards[k].button.Some?)
    ensures r.None? ==> forall k | 0 <= k < |cards| :: !(cards[k].index == index && cards[k].button.Some?)
  {
    if cards == [] then None
    else if cards[0].index == index && cards[0].button.Some? then Some(0)
    else
      match FindButton(cards[1..], index)
      case None => None
      case Some(k) => Some(k + 1)
  }

  /** Restyling the button that was found leaves it the one found. */
  lemma FindButtonAfterRestyle(cards: seq<Card>, index: int, b: Button)
    requires FindButton(cards, index).Some?
    ensures var k := FindButton(cards, index).value;
      FindButton(cards[k := cards[k].(button := Some(b))], index) == Some(k)
  {
    var k := FindButton(cards, index).value;
    var after := cards[k := cards[k].(button := Some(b))];
    assert after[k].index == index && after[k].button.Some?;
  }

  /** The `switch (state)` of `updateAddToCalendarButton`. */
  function ButtonAfter(b: Button, state: string): (r: Button)
    ensures state == "loading" ==> r == b.(disabled := true, text := "Adding...")
    ensures state == "success" ==>
      r.disabled == b.disabled && r.text == "Added!" && r.classes == b.classes - {"btn-primary"} + {"btn-success"}
    ensures state == "error" ==> r == b.(disabled := false, text := "Add to Calendar")
    ensures state !in {"loading", "success", "error"} ==> r == b
  {
    if state == "loading" then b.(disabled := true, text := "Adding...")
    else if state == "success" then b.(text := "Added!", classes := b.classes - {"btn-primary"} + {"btn-success"})
    else if state == "error" then b.(disabled := false, text := "Add to Calendar")
    else b
  }

  /** The cards `displayEvents` builds: one view card per event, card k
      carrying index k. */
  predicate ListsEvents(cards: seq<Card>, events: seq<Event>) {
    |cards| == |events| && forall k | 0 <= k < |events| :: cards[k] == ViewCard(events[k], k)
  }

  class UIManager {
    const dom: PopupDom

    constructor(elements: PopupDom)
      ensures dom == elements
    {
      dom := elements;
    }

    /** `showLoading(message)` */
    method ShowLoading(message: string)
      modifies dom
      ensures dom.hidden == old(dom.hidden) + StateSet - {LoadingState}
      ensures dom.loadingText == message
      ensures dom.errorText == old(dom.errorText) && dom.cards == old(dom.cards)
      ensures dom.notices == old(dom.notices) && dom.apiKeyInput == old(dom.apiKeyInput)
    {
      dom.HideAllStates();
      dom.hidden := dom.hidden - {LoadingState};
      dom.loadingText := message;
    }

    /** `showError(message)` */
    method ShowError(message: string)
      modifies dom
      ensures dom.hidden == old(dom.hidden) + StateSet - {ErrorState}
      ensures dom.errorText == message
      ensures dom.loadingText == old(dom.loadingText) && dom.cards == old(dom.cards)
      ensures dom.notices == old(dom.notices) && dom.apiKeyInput == old(dom.apiKeyInput)
    {
      dom.HideAllStates();
      dom.hidden := dom.hidden - {ErrorState};
      dom.errorText := message;
    }

    /** `showNoEvents()` */
    method ShowNoEvents()
      modifies dom
      ensures dom.hidden == old(dom.hidden) + StateSet - {NoEventsState}
      ensures dom.loadingText == old(dom.loadingText) && dom.errorText == old(dom.errorText)
      ensures dom.cards == old(dom.cards) && dom.notices == old(dom.notices) && dom.apiKeyInput == old(dom.apiKeyInput)
    {
      dom.HideAllStates();
      dom.hidden := dom.hidden - {NoEventsState};
    }

    /** `showInitialState()`: every state panel hidden, the main actions shown. */
    method ShowInitialState()
      modifies dom
      ensures dom.hidden == old(dom.hidden) + StateSet - {MainActions}
      ensures dom.loadingText == old(dom.loadingText) && dom.errorText == old(dom.errorText)
      ensures dom.cards == old(dom.cards) && dom.notices == old(dom.notices) && dom.apiKeyInput == old(dom.apiKeyInput)
    {
      dom.HideAllStates();
      dom.hidden := dom.hidden - {MainActions};
    }

    /** `displayEvents(events, handlers)`: show the list, empty it, then
        append one card per event. */
    method DisplayEvents(events: seq<Event>)
      modifies dom
      ensures dom.hidden == old(dom.hidden) + StateSet - {EventsContainer}
      ensures ListsEvents(dom.cards, events)
      ensures dom.loadingText == old(dom.loadingText) && dom.errorText == old(dom.errorText)
      ensures dom.notices == old(dom.notices) && dom.apiKeyInput == old(dom.apiKeyInput)
    {
      dom.HideAllStates();
      dom.hidden := dom.hidden - {EventsContainer};
      dom.cards := [];
      var index := 0;
      while index < |events|
        invariant 0 <= index <= |events|
        invariant ListsEvents(dom.cards, events[..index])
        invariant dom.hidden == old(dom.hidden) + StateSet - {EventsContainer}
        invariant dom.loadingText == old(dom.loadingText) && dom.errorText == old(dom.errorText)
        invariant dom.notices == old(dom.notices) && dom.apiKeyInput == old(dom.apiKeyInput)
      {
        dom.cards := dom.cards + [ViewCard(events[index], index)];
        index := index + 1;
      }
      assert events[..index] == events;
    }

    /** `showEventEditMode(event, index, handlers)`: the card with that index,
        if any, becomes the edit form. */
    method ShowEventEditMode(event: Event, index: int)
      modifies dom
      ensures FindCard(old(dom.cards), index).Some? ==>
        dom.cards == old(dom.cards)[FindCard(old(dom.cards), index).value := EditCard(event, index)]
      ensures FindCard(old(dom.cards), index).None? ==> dom.cards == old(dom.cards)
      ensures dom.hidden == old(dom.hidden) && dom.loadingText == old(dom.loadingText)
      ensures dom.errorText == old(dom.errorText) && dom.notices == old(dom.notices) && dom.apiKeyInput == old(dom.apiKeyInput)
    {
      var existing := FindCard(dom.cards, index);
      if existing.Some? {
        dom.cards := dom.cards[existing.value := EditCard(event, index)];
      }
    }

    /** `showEventViewMode(event, index, handlers)`: the card with that index,
        if any, becomes a view card. Building a view card of a `null` event
        reads `event.title` and throws; nothing is replaced then. */
    method ShowEventViewMode(event: Option<Event>, index: int) returns (r: Result<(), JsError>)
      modifies dom
      ensures r.Failure? <==> FindCard(old(dom.cards), index).Some? && event.None?
      ensures FindCard(old(dom.cards), index).Some? && event.Some? ==>
        dom.cards == old(dom.cards)[FindCard(old(dom.cards), index).value := ViewCard(event.value, index)]
      ensures FindCard(old(dom.cards), index).None? || event.None? ==> dom.cards == old(dom.cards)
      ensures dom.hidden == old(dom.hidden) && dom.loadingText == old(dom.loadingText)
      ensures dom.errorText == old(dom.errorText) && dom.notices == old(dom.notices) && dom.apiKeyInput == old(dom.apiKeyInput)
    {
      var existing := FindCard(dom.cards, index);
      if existing.Some? {
        if event.None? {
          return Failure(TypeError);
        }
        dom.cards := dom.cards[existing.value := ViewCard(event.value, index)];
      }
      return Success(());
    }

    /** `updateAddToCalendarButton(index, state)`: no button, no change. */
    method UpdateAddToCalendarButton(index: int, state: string)
      modifies dom
      ensures FindButton(old(dom.cards), index).Some? ==>
        var k := FindButton(old(dom.cards), index).value;
        dom.cards == old(dom.cards)[k := old(dom.cards)[k].(button := Some(ButtonAfter(old(dom.cards)[k].button.value, state)))]
      ensures FindButton(old(dom.cards), index).None? ==> dom.cards == old(dom.cards)
      ensures dom.hidden == old(dom.hidden) && dom.loadingText == old(dom.loadingText)
      ensures dom.errorText == old(dom.errorText) && dom.notices == old(dom.notices) && dom.apiKeyInput == old(dom.apiKeyInput)
    {
      var btn := FindButton(dom.cards, index);
      if btn.None? {
        return;
      }
      var card := dom.cards[btn.value];
      dom.cards := dom.cards[btn.value := card.(button := Some(ButtonAfter(card.button.value, state)))];
    }
  }
}

/** What the panel and list operations guarantee. */
module UserInterfaceProperties {
  import opened Wrappers
  import opened Records
  import opened Popup
  import opened UserInterface

  /** Exactly the named panel of the five state panels is visible. */
  lemma OnlyOneStateShown(before: set<Panel>, shown: Panel)
    requires shown in StatePanels
    ensures forall p | p in StatePanels :: p in before + StateSet - {shown} <==> p != shown
  {
  }

  /** The initial state shows the main actions and no state panel, and
      leaves the main actions alone otherwise. */
  lemma InitialStateShowsActions(before: set<Panel>)
    ensures forall p | p in StatePanels :: p in before + StateSet - {MainActions}
    ensures MainActions !in before + StateSet - {MainActions}
  {
  }

  /** In a freshly displayed list every index finds its own card. */
  lemma {:induction false} DisplayedCardsFound(cards: seq<Card>, events: seq<Event>, i: int)
    requires ListsEvents(cards, events) && 0 <= i < |events|
    ensures FindCard(cards, i) == Some(i as nat)
    ensures FindButton(cards, i) == Some(i as nat)
  {
    assert forall k | 0 <= k < |cards| :: cards[k].index == k && cards[k].button.Some?;
    assert cards[i].index == i && cards[i].button.Some?;
  }

  /** An index outside the displayed list finds no card. */
  lemma NoCardOutsideList(cards: seq<Card>, events: seq<Event>, i: int)
    requires ListsEvents(cards, events) && !(0 <= i < |events|)
    ensures FindCard(cards, i).None? && FindButton(cards, i).None?
  {
    assert forall k | 0 <= k < |cards| :: cards[k].index == k;
  }

  /** Loading, then success: disabled, "Added!", green instead of blue. */
  lemma LoadingThenSuccess()
    ensures ButtonAfter(ButtonAfter(AddButton, "loading"), "success")
            == Button(true, "Added!", {"btn", "btn-success", "btn-small", "add-to-calendar-btn"})
  {
  }

  /** Loading, then error: back to an enabled "Add to Calendar" button. */
  lemma LoadingThenError()
    ensures ButtonAfter(ButtonAfter(AddButton, "loading"), "error") == AddButton
  {
  }
}
