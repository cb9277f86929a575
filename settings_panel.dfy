/**
 * The settings panel: its show and hide helpers and the listeners of its
 * Save and Cancel buttons. The `onSaved` callback is the one the popup
 * installs, `uiManager.showInitialState()`; the one-second delay before it
 * runs after a save is not modelled.
 */
module Settings {
  import opened Text
  import opened Popup
  import opened UserInterface
  import opened Validators

  const ApiKeyItem := "anthropicApiKey"
  const EnterKeyMessage := "Please enter your Anthropic API key."
  const BadKeyMessage := "Invalid API key format. Anthropic API keys start with \"sk-ant-\""
  const SavedMessage := "Settings saved successfully!"

  class SettingsPanel {
    const ui: UIManager
    const storage: SyncStorage

    constructor(ui0: UIManager, storage0: SyncStorage)
      ensures ui == ui0 && storage == storage0
    {
      ui := ui0;
      storage := storage0;
    }

    /** `showSettings(configState, mainActions)` */
    method ShowSettings()
      modifies ui.dom
      ensures ui.dom.hidden == old(ui.dom.hidden) + StateSet - {ConfigState} + {MainActions}
      ensures ui.dom.cards == old(ui.dom.cards) && ui.dom.notices == old(ui.dom.notices)
      ensures ui.dom.apiKeyInput == old(ui.dom.apiKeyInput)
      ensures ui.dom.loadingText == old(ui.dom.loadingText) && ui.dom.errorText == old(ui.dom.errorText)
    {
      ui.dom.HideAllStates();
      ui.dom.hidden := ui.dom.hidden - {ConfigState};
      ui.dom.hidden := ui.dom.hidden + {MainActions};
    }

    /** `hideSettings(configState, mainActions)`: the other panels are untouched. */
    method HideSettings()
      modifies ui.dom
      ensures ui.dom.hidden == old(ui.dom.hidden) + {ConfigState} - {MainActions}
      ensures ui.dom.cards == old(ui.dom.cards) && ui.dom.notices == old(ui.dom.notices)
      ensures ui.dom.apiKeyInput == old(ui.dom.apiKeyInput)
      ensures ui.dom.loadingText == old(ui.dom.loadingText) && ui.dom.errorText == old(ui.dom.errorText)
    {
      ui.dom.hidden := ui.dom.hidden + {ConfigState};
      ui.dom.hidden := ui.dom.hidden - {MainActions};
    }

    /** The Cancel listener: hide the panel, then `onSaved()` at once. */
    method OnCancel()
      modifies ui.dom
      ensures ui.dom.hidden == old(ui.dom.hidden) + StateSet - {MainActions}
      ensures ui.dom.cards == old(ui.dom.cards) && ui.dom.notices == old(ui.dom.notices)
      ensures storage.items == old(storage.items)
      ensures ui.dom.apiKeyInput == old(ui.dom.apiKeyInput)
      ensures ui.dom.loadingText == old(ui.dom.loadingText) && ui.dom.errorText == old(ui.dom.errorText)
    {
      HideSettings();
      ui.ShowInitialState();
    }

    /** The Save listener: trim the input, refuse an empty or malformed key
        with a message, otherwise store exactly the trimmed key, confirm,
        hide the panel and call `onSaved()`. */
    method OnSave()
      modifies ui.dom, storage
      ensures Trim(old(ui.dom.apiKeyInput)) == [] ==>
        && storage.items == old(storage.items)
        && ui.dom.notices == old(ui.dom.notices) + [Notice(EnterKeyMessage, ErrorNotice)]
        && ui.dom.hidden == old(ui.dom.hidden)
      ensures Trim(old(ui.dom.apiKeyInput)) != [] && !IsValidAnthropicApiKey(Trim(old(ui.dom.apiKeyInput))) ==>
        && storage.items == old(storage.items)
        && ui.dom.notices == old(ui.dom.notices) + [Notice(BadKeyMessage, ErrorNotice)]
        && ui.dom.hidden == old(ui.dom.hidden)
      ensures IsValidAnthropicApiKey(Trim(old(ui.dom.apiKeyInput))) ==>
        && storage.items == old(storage.items)[ApiKeyItem := Trim(old(ui.dom.apiKeyInput))]
        && ui.dom.notices == old(ui.dom.notices) + [Notice(SavedMessage, SuccessNotice)]
        && ui.dom.hidden == old(ui.dom.hidden) + StateSet - {MainActions}
      ensures ui.dom.cards == old(ui.dom.cards) && ui.dom.apiKeyInput == old(ui.dom.apiKeyInput)
      ensures ui.dom.loadingText == old(ui.dom.loadingText) && ui.dom.errorText == old(ui.dom.errorText)
    {
      var apiKey := Trim(ui.dom.apiKeyInput);
      if apiKey == [] {
        ui.dom.ShowMessage(EnterKeyMessage, ErrorNotice);
        return;
      }
      if !IsValidAnthropicApiKey(apiKey) {
        ui.dom.ShowMessage(BadKeyMessage, ErrorNotice);
        return;
      }
      Store(apiKey);
    }

    /** The end of the Save listener, once the key is accepted. */
    method Store(apiKey: string)
      modifies ui.dom, storage
      ensures storage.items == old(storage.items)[ApiKeyItem := apiKey]
      ensures ui.dom.notices == old(ui.dom.notices) + [Notice(SavedMessage, SuccessNotice)]
      ensures ui.dom.hidden == old(ui.dom.hidden) + StateSet - {MainActions}
      ensures ui.dom.cards == old(ui.dom.cards) && ui.dom.apiKeyInput == old(ui.dom.apiKeyInput)
      ensures ui.dom.loadingText == old(ui.dom.loadingText) && ui.dom.errorText == old(ui.dom.errorText)
    {
      storage.SaveSettings(map[ApiKeyItem := apiKey]);
      ui.dom.ShowMessage(SavedMessage, SuccessNotice);
      HideSettings();
      ui.ShowInitialState();
    }
  }
}

module SettingsProperties {
  import opened Text
  import opened Popup
  import opened UserInterface
  import opened Validators
  import opened Settings

  /** A key typed with surrounding blanks is stored without them. */
  method SavePaddedKey(panel: SettingsPanel, w1: string, key: string, w2: string)
    requires AllSpace(w1) && AllSpace(w2) && Trimmed(key) && StartsWith(key, KeyPrefix)
    requires panel.ui.dom.apiKeyInput == w1 + key + w2
    modifies panel.ui.dom, panel.storage
    ensures panel.storage.items == old(panel.storage.items)[ApiKeyItem := key]
  {
    TrimPadded(w1, key, w2);
    panel.OnSave();
  }

  /** Showing the settings then cancelling ends in the initial state. */
  method ShowThenCancel(panel: SettingsPanel)
    modifies panel.ui.dom
    ensures forall p | p in StatePanels :: p in panel.ui.dom.hidden
    ensures MainActions !in panel.ui.dom.hidden
  {
    panel.ShowSettings();
    panel.OnCancel();
  }
}
