/**
 * The records that travel between the extension's contexts: the page
 * snapshot the content script produces, the normalised event record the
 * background worker returns, and the trace of cross-boundary calls each
 * operation issues (so that "no call is made" can be stated).
 */
module Records {
  import opened Wrappers
  import opened JsValues

  /** `metaInfo` as built by the content script. */
  datatype MetaInfo = MetaInfo(
    description: string,
    keywords: string,
    author: string,
    ogTitle: string,
    ogDescription: string,
    eventSchema: seq<Json>)

  /** The page snapshot (`html` is carried by the source but read by nobody). */
  datatype PageContent = PageContent(
    title: string,
    url: string,
    visibleText: string,
    metaInfo: MetaInfo)

  /** An event record. Field values are whatever the language model sent when
      truthy, so they stay JSON values rather than typed strings. */
  datatype Event = Event(
    title: Json,
    description: Json,
    location: Json,
    startDateTime: Json,
    endDateTime: Json,
    allDay: Json)

  /** A call that leaves the popup or the worker. */
  datatype Call =
    | InjectContentScript
    | RequestPageContent
    | RequestEventExtraction
    | ModelRequest(prompt: string)
    | CalendarRequest(event: Event)
    | OpenTab(url: string)

  /** The calls an operation issued, in order, and what it produced. */
  datatype Step<+T> = Step(calls: seq<Call>, result: Result<T, string>)
}
