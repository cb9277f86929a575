# Event Extractor browser extension — verified model of its core

The extension reads the page in the active tab and asks a language model
for the events on it. The model's answer is turned into event records, which
the user reviews and edits in the popup. An event can then be sent to
Google Calendar. This project models the deterministic part of that pipeline
in Dafny and proves its properties:

- the background worker:
  - the prompt template (`buildEventExtractionPrompt`);
  - the reply parser (`parseClaudeResponse`), including the Markdown-fence
    regular expression, modelled exactly, and the JavaScript `||`
    defaulting of every field;
  - the missing-key guard of `handleExtractEvents`;
  - the mapping of an event to a Google Calendar payload.
- the content script: whitespace clean-up and truncation of the page text,
  the dispatch of `<meta>` tags into five fields, and the JSON-LD "is an
  Event" filter.
- the popup:
  - the `AppState` store;
  - the event handlers;
  - the `UIManager` panel and card transitions;
  - the settings panel;
  - the page-URL check and the reply mapping of the extraction service;
  - the key and event validators and the date formatters.

JSON values are the datatype `JsValues.Json`, and `Truthy` is JavaScript
truthiness. `JSON.parse` and `JSON.stringify` are function parameters. So
are `toLocaleString`, the HTML serialiser, `String(v)` and the time zone.
Every reply that crosses a context boundary is a parameter holding its
outcome: the tab URL, the content script's answer, the model's reply, the
worker's answer and the calendar reply. An operation that would contact
another context returns the calls it makes, in order, as a `seq<Call>`.
This is how "no request is made" becomes a statement about a value.

Classes follow the source where the source updates objects in place:

- `State.AppState` is the store.
- `Popup.PopupDom` abstracts the popup's elements. It holds the set of
  hidden panels, the loading and error texts, the list of event cards, the
  status notices shown and the key input.
- `Popup.SyncStorage` is `chrome.storage.sync`.
- `UserInterface.UIManager`, `Settings.SettingsPanel` and
  `Handlers.EventHandlers` hold those objects and change them through
  methods whose `modifies` clauses name them.

Three behaviours of the code that are easy to miss, all followed by the model:

- A new extraction does not clear the editing index. `clearEvents` is never
  called.
- `validateEvent` has no caller in the core. It is modelled on its own.
- An extraction that finds no events shows the "no events" panel and leaves
  the old cards in the hidden list. `Handlers.EventHandlers.Synced` states
  the agreement between cards and events that does hold.

## Model

| member | source | states |
|---|---|---|
| ResponseParser.FirstBlock | background.js:127 | the match of the fence expression: none exactly when no fence has another fence three or more characters after it; otherwise the leftmost fence and the nearest non-overlapping fence after it |
| ResponseParser.FirstBlockUnique | background.js:127 | the leftmost-fence / nearest-closing-fence pair is unique |
| ResponseParser.TagEnd | background.js:127 | the optional `(?:json)` is taken exactly when the four characters after the fence are `json` |
| ResponseParser.GroupStart | background.js:127 | the captured group starts after the fence, the optional `json` tag and only white space, and not after the closing fence; the greedy `\s*` takes the whole white-space run, so the group starts with a visible character or is empty |
| ResponseParser.ExtractJsonText | background.js:124-130 | the text handed to `JSON.parse` is trimmed; without a block it is the trimmed reply; with a block it is the trimmed group between the leftmost fence and its closing fence |
| ResponseParser.NormalizeEvent | background.js:140-147 | fails exactly for a `null` element; otherwise each field is the element's own value when truthy and its default otherwise ("Untitled Event", "", "", null, null, false), and the record is well formed |
| ResponseParser.NormalizeAll | background.js:140-147 | succeeds exactly when no element is `null`; then it has the input's length and element i is the normalisation of input element i |
| ResponseParser.ParseParsed | background.js:133-147 | a value `JSON.parse` refused is MalformedJson, a non-array is NotAnArray ("Expected an array of events"), an array succeeds iff it has no `null` element, with one record per element in order |
| ResponseParser.ParseClaudeResponse | background.js:121-148 | the same outcome, stated for the value parsed from the extracted text of the reply |
| ResponseParserProperties.UnclosedFenceKept | background.js:124-130 | a lone opening fence with no closing fence is not stripped: the whole trimmed reply is parsed |
| ResponseParserProperties.BlockPosition | background.js:127 | in `p + fence + r + fence + q` with fence-free `p` and `r`, the match opens at `|p|` and closes at `|p| + 3 + |r|` |
| ResponseParserProperties.FencedEqualsBare | background.js:124-130 | an array wrapped in a fence (with or without the `json` tag and any surrounding white space, between any fence-free prefix and any suffix) extracts to the bare array text, which extracts to itself |
| ResponseParserProperties.BareArrayKept | background.js:124-130 | a bare array text without fences is handed to `JSON.parse` unchanged |
| ResponseParserProperties.FencedParsesAsBare | background.js:121-148 | a fenced reply parses to the same events as the bare array |
| ResponseParserProperties.NormalizeIdempotent | background.js:140-147 | normalising a well-formed record's JSON gives the record back |
| ResponseParserProperties.ReparseIsIdentity | background.js:140-147 | normalising the JSON of a list of well-formed records gives the same list |
| ResponseParserProperties.TalkScenario | background.js:121-148 | a concrete fenced model reply with one object lacking `allDay` yields exactly one event with `allDay` false |
| PromptBuilder.Prefix | background.js:101 | `substring(0, n)` has length min(n, len) and is a prefix |
| PromptBuilder.BuildPrompt | background.js:78-116 | the prompt starts with the template head and the page title and URL, and ends with the visible-text heading, the cut visible text and the answer instructions; without JSON-LD events it is exactly head and tail; with them the schema block sits between the two |
| PromptBuilderProperties.OnlyPrefixOfTextMatters | background.js:101 | pages that agree on title, URL, meta data and the first 15000 characters of text get the same prompt |
| PromptBuilderProperties.LongTextIsCut | background.js:101 | the prompt of a page with long text equals the prompt of the page cut at 15000 characters |
| PromptBuilderProperties.EmptySchemaIgnoresStringify | background.js:95-98 | without schema events the serialiser is never used |
| PromptBuilderProperties.PageFactsEmbedded | background.js:92-93 | the title and the URL always occur in the prompt |
| PromptBuilderProperties.VisibleTextEmbedded | background.js:100-101 | the cut visible text always occurs in the prompt |
| BackgroundWorker.HandleExtractEvents | background.js:30-73 | a falsy key fails with the configuration message and makes no call; otherwise exactly one model request with the built prompt is made; a reply error passes through; every parser failure becomes "Failed to parse event information from AI response" |
| BackgroundWorkerProperties.ParseFailuresCollapse | background.js:66-72 | any two unparsable replies give the same worker result |
| BackgroundWorkerProperties.NonArrayReplyRejected | background.js:133-137 | a reply that does not parse to an array is reported with the collapsed parse message |
| BackgroundWorkerProperties.EventsOnlyFromModel | background.js:30-73 | events are returned only after one request and only from a reply that parses to them |
| Text.BeforeFirst | background.js:182 | `split(c)[0]` is the longest prefix without `c`: it is a prefix, it holds no `c`, and `c` follows it unless it is the whole text |
| CalendarPayload.DatePart | background.js:182-183 | `v ? v.split('T')[0] : null`: none for a falsy value, a TypeError for a truthy non-string, the part before the first 'T' otherwise |
| CalendarPayload.BuildCalendarEvent | background.js:173-201 | summary, description and location are copied; start is set iff end is set; all-day events get the start date and the end date or the start date, when the start date is non-empty; timed events with a truthy start get that start and `end || start`, both with the given time zone |
| CalendarPayloadProperties.DateOfDateTime | background.js:182 | the date part of `date + "T" + time` is `date` |
| CalendarPayloadProperties.DateWithoutTime | background.js:182 | a value with no 'T' is its own date part |
| CalendarPayloadProperties.DatePartOfDateTime | background.js:182-183 | `DatePart` of such a value is that date |
| CalendarPayloadProperties.AllDayExample | background.js:180-188 | an all-day event with a start and no end gets the start date for both ends |
| ContentScript.Collapse | content.js:66 | `replace(/\s+/g, ' ')` is no longer than its input, is empty iff the input is, and starts with white space iff the input does |
| ContentScript.CollapseSingleSpaced | content.js:66 | after collapsing, no two white-space characters are adjacent and every white-space character is a plain space |
| ContentScript.CollapseKeepsVisible | content.js:66 | collapsing keeps every non-white-space character, in order |
| ContentScript.TrimKeepsVisible | content.js:66 | `trim()` removes only white space: the visible characters are kept |
| ContentScript.CollapseVisible | content.js:66 | a visible character is copied as it is |
| ContentScript.CollapseSpaceRun | content.js:66 | a whole white-space run, up to the next visible character or the end, becomes exactly one ' ' |
| ContentScript.CollapseConcat | content.js:66 | the part after a visible character is collapsed on its own |
| ContentScript.CollapseWordBreak | content.js:66 | two words separated by any white-space run collapse to the two collapsed words with one ' ' between them |
| ContentScript.CleanTextProperties | content.js:66 | the cleaned text is trimmed and single-spaced, and it has the same visible characters as the raw text |
| ContentScript.CleanSeparatesWords | content.js:66 | in the cleaned text the white space between two words is exactly one ' ': words are neither merged nor split |
| Text.TrimAroundSpace | content.js:66 | trimming keeps a single space between two words |
| ContentScript.ExtractVisibleText | content.js:63-73 | the result is the cleaned text when it has at most 100000 characters; otherwise it is its first 100000 characters followed by "... [truncated]"; the kept text is single-spaced and starts with no white space in both cases |
| ContentScript.ApplyTag | content.js:91-114 | a tag with a key (`name`, else `property`) and content fills exactly the field whose name equals the lower-cased key; other fields and the JSON-LD list are unchanged |
| ContentScript.ApplyTags | content.js:91-114 | folding the tags over a record leaves its JSON-LD list alone |
| ContentScript.SomeEvent | content.js:121 | `data.some(item => item['@type'] === 'Event')`: true iff some element is typed Event and no `null` precedes it, since reading `@type` of `null` throws |
| ContentScript.ExtractMetaInfo | content.js:79-130 | the meta record is the empty record updated by every tag in document order, with the JSON-LD list being the parsed blocks that are events, in document order |
| ContentScriptProperties.LastTagWins | content.js:91-114 | a field stays "" when no tag fills it and otherwise holds the content of the last tag that fills it |
| ContentScriptProperties.IgnoredTag | content.js:95-112 | a tag that fills no field changes nothing |
| Text.Lower | content.js:96 | the model of `toLowerCase()` lower-cases each character by itself and so keeps the length (JavaScript's does not for U+0130, see Left out) |
| ContentScriptProperties.LowerCharMatch | content.js:96 | a character lower-cases to a lower-case ASCII key character exactly when it is that character, its upper-case form, or KELVIN SIGN for `k` |
| ContentScriptProperties.KeysLowerCase | content.js:97-111 | the five keys are lower-case ASCII |
| ContentScriptProperties.PropertyKeyCaseInsensitive | content.js:92-96 | for every tag and field: the key is `name`, or `property` exactly when `name` is absent or empty, and the tag fills the field iff it has a key and a content and its key spells the field's key up to ASCII case |
| ContentScriptProperties.OgTitleTags | content.js:92-96 | `property="OG:Title"` without a name, and `property="og:title"` with an empty name, both fill the Open Graph title |
| ContentScriptProperties.BlocksInDocumentOrder | content.js:117-127 | the kept blocks of two script lists are the kept blocks of each, concatenated |
| ContentScriptProperties.KeptBlocksAreEvents | content.js:117-127 | every kept block is an event schema that some script parsed to, and no more blocks are kept than there are scripts |
| ContentScriptProperties.NullItemOrder | content.js:121 | an array with an Event followed by `null` is kept, while `null` followed by an Event is skipped |
| ContentScriptProperties.NullBlockSkipped | content.js:121-126 | a `null` block throws and is skipped |
| ContentScriptProperties.EventBlockAppended | content.js:121-123 | a script parsing to an event schema, an Event object or an array with an Event before any `null`, is appended after the blocks kept before it |
| ContentScriptProperties.EventScriptsKept | content.js:117-127 | every script that parses to an event schema has its block kept: the converse of KeptBlocksAreEvents |
| State.AppState.constructor | js/state/appState.js:6-10 | no events, no editing index, empty settings |
| State.AppState.SetEvents | js/state/appState.js:16-18 | replaces the list wholesale and changes nothing else |
| State.AppState.GetEvents | js/state/appState.js:24-26 | the current list |
| State.AppState.GetEvent | js/state/appState.js:33-35 | present iff the index is in range, and then the element at it |
| State.AppState.UpdateEvent | js/state/appState.js:42-46 | writes only position `index` when it is in range, and otherwise changes nothing |
| State.AppState.SetEditingIndex | js/state/appState.js:52-54 | sets the editing index only |
| State.AppState.GetEditingIndex | js/state/appState.js:60-62 | the editing index |
| State.AppState.SetSettings | js/state/appState.js:68-70 | shallow merge: keys of the argument override, other keys are kept |
| State.AppState.GetSettings | js/state/appState.js:76-78 | the settings |
| State.AppState.ClearEvents | js/state/appState.js:83-86 | empties the list and clears the editing index, keeping the settings |
| StateProperties.UpdateThenGet | js/state/appState.js:33-46 | after an in-range update, reading that index gives the new event, the length is kept and other indices read as before |
| StateProperties.UpdateOutOfRange | js/state/appState.js:42-46 | an out-of-range update leaves the list alone |
| StateProperties.SetSettingsIdempotent | js/state/appState.js:68-70 | the merged settings are the old settings overridden by the argument, as a map |
| Popup.PopupDom.HideAllStates | js/ui/uiManager.js:124-138 | adds the five state panels to the hidden set and touches nothing else, in particular not the main actions |
| Popup.PopupDom.ShowMessage | js/ui/components/statusMessage.js:11-29 | appends one notice with the given text and kind |
| Popup.PopupDom.constructor | js/ui/uiManager.js:8-10 | the popup starts with the given hidden panels and key input, no texts, no cards and no notices |
| Popup.SyncStorage.constructor | js/services/storageService.js:9-15 | the storage holds the given items |
| Popup.SyncStorage.LoadSettings | js/services/storageService.js:9-15 | the `anthropicApiKey` item alone when it is stored, an empty record otherwise |
| Popup.SyncStorage.SaveSettings | js/services/storageService.js:22-26 | the given items override the stored ones |
| UserInterface.FindCard | js/ui/uiManager.js:74 | the first card whose index matches, or none when no card matches |
| UserInterface.FindButton | js/ui/uiManager.js:101 | the first card with an add button for the index, or none |
| UserInterface.FindButtonAfterRestyle | js/ui/uiManager.js:101 | after the found button is restyled, looking it up again finds the same card, so successive button updates hit one button |
| UserInterface.ButtonAfter | js/ui/uiManager.js:104-118 | 'loading' disables and shows "Adding..."; 'success' shows "Added!" and swaps btn-primary for btn-success, leaving disabled alone; 'error' enables and shows "Add to Calendar"; other states change nothing |
| UserInterface.UIManager.constructor | js/ui/uiManager.js:8-10 | the manager works on the given elements |
| UserInterface.UIManager.ShowLoading | js/ui/uiManager.js:16-20 | exactly the loading panel of the five is shown, with the message |
| UserInterface.UIManager.ShowError | js/ui/uiManager.js:26-30 | exactly the error panel is shown, with the message |
| UserInterface.UIManager.ShowNoEvents | js/ui/uiManager.js:35-38 | exactly the no-events panel is shown |
| UserInterface.UIManager.ShowInitialState | js/ui/uiManager.js:43-46 | all five panels are hidden and the main actions are shown |
| UserInterface.UIManager.DisplayEvents | js/ui/uiManager.js:53-65 | the list panel is shown and the cards are one view card per event, in order, card k carrying index k |
| UserInterface.UIManager.ShowEventEditMode | js/ui/uiManager.js:73-79 | the first card for the index becomes an edit card, and nothing changes when there is none |
| UserInterface.UIManager.ShowEventViewMode | js/ui/uiManager.js:87-93 | the first card for the index becomes a view card; with no stored event for an existing card, building it throws |
| UserInterface.UIManager.UpdateAddToCalendarButton | js/ui/uiManager.js:100-119 | only the first matching button changes, as `ButtonAfter` says; with no button nothing changes |
| UserInterfaceProperties.OnlyOneStateShown | js/ui/uiManager.js:16-38 | after showing one state panel, it is the only one of the five that is visible |
| UserInterfaceProperties.InitialStateShowsActions | js/ui/uiManager.js:43-46 | the initial state hides the five panels and shows the main actions |
| UserInterfaceProperties.DisplayedCardsFound | js/ui/uiManager.js:53-79 | after listing, the card and the button for an in-range index are found at that index |
| UserInterfaceProperties.NoCardOutsideList | js/ui/uiManager.js:53-93 | after listing, there is no card or button for an index out of range |
| UserInterfaceProperties.LoadingThenSuccess | js/ui/uiManager.js:105-113 | loading then success leaves the button disabled, showing "Added!" |
| UserInterfaceProperties.LoadingThenError | js/ui/uiManager.js:105-117 | loading then error restores the original button |
| Settings.SettingsPanel.ShowSettings | js/ui/components/settingsPanel.js:64-68 | hides the five panels, shows the configuration panel and hides the main actions; texts, cards, notices and the key input are unchanged |
| Settings.SettingsPanel.HideSettings | js/ui/components/settingsPanel.js:75-78 | hides the configuration panel, shows the main actions and leaves the other panels, texts, cards, notices and the key input alone |
| Settings.SettingsPanel.constructor | js/ui/components/settingsPanel.js:14-22 | the panel works on the given UI and storage |
| Settings.SettingsPanel.Store | js/ui/components/settingsPanel.js:49-55 | stores the key under `anthropicApiKey`, confirms, and returns to the initial state with the configuration panel hidden; texts, cards and the key input are unchanged |
| Settings.SettingsPanel.OnCancel | js/ui/components/settingsPanel.js:30-33 | hides the panel and returns to the initial state at once, storing nothing and leaving texts, cards, notices and the key input unchanged |
| Settings.SettingsPanel.OnSave | js/ui/components/settingsPanel.js:36-56 | an empty trimmed key and a key without the prefix each give their error notice and store nothing; a valid key stores exactly the trimmed key under `anthropicApiKey`, confirms, and returns to the initial state; texts, cards and the key input are unchanged in every case |
| SettingsProperties.SavePaddedKey | js/ui/components/settingsPanel.js:37-49 | a key typed with surrounding blanks is stored without them |
| SettingsProperties.ShowThenCancel | js/ui/components/settingsPanel.js:30-33 | showing then cancelling leaves the five panels hidden and the main actions visible |
| ExtractionService.PageReply | js/services/eventExtractionService.js:49-63 | an error naming a missing receiver becomes the refresh-the-page message, other errors pass verbatim, a successful answer gives its data, and a missing or failed answer gives its error or "Failed to extract page content" |
| ExtractionService.ExtractPageContent | js/services/eventExtractionService.js:29-66 | an invalid URL fails before any call; otherwise the script is injected, the page is asked, and the answer is mapped |
| ExtractionService.ExtractEvents | js/services/eventExtractionService.js:74-95 | one message to the worker; a messaging error wins over the worker's answer |
| ExtractionServiceProperties.WebPageValidity | js/services/eventExtractionService.js:10-23 | a valid URL is defined, non-empty and starts with none of the six system prefixes; any non-empty URL whose first character is not one of `a`, `c`, `d`, `e`, `f` is valid |
| ExtractionServiceProperties.HttpPagesValid | js/services/eventExtractionService.js:10-23 | http and https pages are valid |
| ExtractionServiceProperties.SystemPagesInvalid | js/services/eventExtractionService.js:13-22 | a URL starting with any of the six prefixes is invalid |
| ExtractionServiceProperties.UpperCaseSchemeAccepted | js/services/eventExtractionService.js:22 | the check is a case-sensitive prefix test |
| ExtractionServiceProperties.MissingUrlMakesNoCall | js/services/eventExtractionService.js:11-35 | an undefined or empty URL is rejected with no call |
| Validators.ValidateEvent | js/utils/validators.js:19-34 | a missing or blank title gives the title error, a missing start on a non-all-day event gives the start error, in that order; valid iff no error; a truthy non-string title throws |
| ValidatorsProperties.KeyValidity | js/utils/validators.js:10-12 | a key that is already trimmed, as the settings panel passes it, is valid iff it starts with `sk-ant-`; a valid key has at least seven characters |
| ValidatorsProperties.PaddedKeyAccepted | js/utils/validators.js:10-12 | a prefixed key with surrounding white space is valid |
| ValidatorsProperties.ValidityIgnoresTrim | js/utils/validators.js:10-12 | a key is valid iff its trimmed form is |
| ValidatorsProperties.BlankKeyRefused | js/utils/validators.js:10-12 | a blank key is invalid |
| Formatters.FormatDateTime | js/utils/formatters.js:10-21 | a falsy value is "Not specified", others go to the locale formatter |
| Formatters.EscapeHtml | js/utils/formatters.js:29-34 | a falsy value is "", others go to the serialiser |
| Formatters.FormatDateTimeForInput | js/utils/formatters.js:41-44 | a falsy value is "", a truthy non-string throws, a string gives its prefix of length min(16, len) |
| FormattersProperties.FormatForInputIdempotent | js/utils/formatters.js:43 | formatting twice is formatting once |
| FormattersProperties.SecondsDropped | js/utils/formatters.js:43 | seconds after the minute are cut off |
| Handlers.EventHandlers.constructor | js/handlers/eventHandlers.js:16 | the handlers share the given store, UI manager and storage |
| Handlers.Extraction | js/handlers/eventHandlers.js:32-35 | an invalid page fails with no call; a page failure stops after asking the page; events arrive only after the page was read and the worker was asked with the page and the key |
| Handlers.EventHandlers.HandleExtractEvents | js/handlers/eventHandlers.js:20-53 | with no stored key (or an empty one) only the configuration notice appears, no call is made and the store, panels, texts and cards are unchanged; otherwise loading is shown, and a failure shows the error without touching the stored events, while success stores the events, keeps the error text, and shows either the no-events panel (old cards kept) or the list; the editing index, settings and key input are never touched |
| Handlers.EventHandlers.RunExtraction | js/handlers/eventHandlers.js:29-52 | with a key: the calls are those of the extraction, loading shows "Analyzing page for events...", and the display follows the outcome (the old cards stay when no events are found, the error text stays on success); afterwards the cards agree with the store |
| Handlers.EventHandlers.ShowExtracted | js/handlers/eventHandlers.js:38-52 | a failure shows the error and keeps the stored events; no events are stored and shown as the no-events panel with the old cards left in place; events are stored and listed one card each; the editing index, settings, loading text, notices and key input are kept |
| Handlers.EventHandlers.HandleEditEvent | js/handlers/eventHandlers.js:59-69 | no stored event changes nothing (events, index, settings, panels, cards, texts, notices, key input); otherwise the editing index becomes the index and the card switches to edit mode |
| Handlers.EventHandlers.HandleSaveEdit | js/handlers/eventHandlers.js:76-86 | stores the edit when the index is in range, clears the editing index, and turns the first card for the index into a view card of the edit; settings, panels, texts, notices and key input are unchanged; the cards keep agreeing with the store |
| Handlers.EventHandlers.HandleCancelEdit | js/handlers/eventHandlers.js:92-101 | events, settings, panels, texts, notices and key input unchanged and editing index cleared; it throws only for a card with no stored event, which cannot happen while the list agrees with the store |
| Handlers.EventHandlers.HandleAddToCalendar | js/handlers/eventHandlers.js:108-132 | no stored event makes no call; otherwise one calendar request, then the success notice naming the title and a tab opened for a link, or the error notice; the first button for the index ends as `ButtonAfter` of "loading" then "success" or "error", every other card is unchanged, and texts and key input are untouched |
| HandlersProperties.StoredKeyReachesModel | js/handlers/eventHandlers.js:24-35 | a key the popup holds is never refused by the worker, and exactly one model request goes out |
| HandlersProperties.WorkerEventsFromModel | background.js:30-73 | events from the worker mean the key was non-empty, the model reply arrived and parses to them, and one model request with the built prompt was made |
| HandlersProperties.ExtractedEventsComeFromModel | js/handlers/eventHandlers.js:29-38 | displayed events are the parse of the model reply, after exactly inject, page, worker and model calls |
| HandlersProperties.RelayErrorReported | js/services/eventExtractionService.js:85-86 | a messaging error on the way back is what the popup reports |
| HandlersProperties.EditThenCancel | js/handlers/eventHandlers.js:59-101 | editing a listed event and cancelling restores the cards exactly |
| HandlersProperties.EditThenSave | js/handlers/eventHandlers.js:59-86 | editing and saving lists the updated events |
| Text.Trim | js/ui/components/settingsPanel.js:37 | `trim()`: the result has no white space at either end and is what remains once the leading and trailing white space is cut off; it is empty iff the input is all white space |
| Text.TrimPadded | js/ui/components/settingsPanel.js:37 | a trimmed text padded with white space on both sides trims back to itself |
| Text.TrimIgnoresLeadingSpace | js/ui/components/settingsPanel.js:37 | leading white space does not change the trimmed text |
| Text.TrimIdempotent | js/ui/components/settingsPanel.js:37 | trimming twice is trimming once |

## Left out

- popup.js: an older single-file copy of the same popup. The modular files
  replace it.
- JSON syntax: `JSON.parse` and `JSON.stringify` are parameters.
- The `fetch` calls to Anthropic and Google Calendar, HTTP status handling
  and OAuth tokens: an operation returns the request it makes, and the
  reply is a parameter.
- Chrome messaging and storage plumbing. The listeners in background.js
  and content.js are not modelled. The messaging error and the answers are
  parameters.
- `Handlers.Extraction`: takes the worker as a parameter, because the
  background worker is a separate context. `HandlersProperties.Background`
  plugs in the model of background.js.
- Live DOM work is not modelled:
  - cloning the body;
  - removing `script`, `style` and hidden elements (content.js:47-60);
    `ExtractVisibleText` starts from the text content that remains;
  - card HTML templates and form reads (js/ui/components/eventCard.js);
  - the removal of an earlier status message. `ShowMessage` appends to a
    log of notices.
- `Date`, `toLocaleString` and `Intl`: parameters.
- Timers are not modelled: the one-second delay before `onSaved`, the
  500 ms delay before opening the calendar tab, and the five-second life of
  a status message.
- Concurrency: overlapping asynchronous extractions are not modelled.
- State.AppState.SetEvents: stores a value. Aliasing between the stored
  array and the caller's array is not modelled.
- Text.LowerChar: lower-cases only A–Z and the Kelvin sign. Apart from
  these, only U+0130 has a lower case holding an ASCII letter: JavaScript
  turns it into `i` followed by U+0307. U+0307 occurs in none of the five
  keys, so the model, which leaves U+0130 unchanged, matches exactly the
  same tags. The meta fields themselves keep the original content.
- ContentScript.ExtractVisibleText, PromptBuilder.Prefix and
  Formatters.FormatDateTimeForInput: lengths and cut positions count
  Unicode scalar values, while JavaScript's `length` and `substring` count
  UTF-16 code units. The two agree only for text in the Basic Multilingual
  Plane. For text with characters outside it (emoji, for instance) the
  source cuts earlier than the model, at 100000, 15000 or 16 code units,
  and may leave half of a surrogate pair, which the model cannot
  represent.
- ExtractionService.ErrorText: a non-string `error` from the content
  script becomes "". The content script only sends strings.
- The popup elements are assumed present, so the `if (element)` guards of
  `hideAllStates` always pass.
- State.AppState.GetEvent: treats every stored event as truthy, which the
  records the parser produces are, so `|| null` only matters out of range.
- js/main.js wiring: not modelled. The popup's callbacks are the methods
  themselves.
