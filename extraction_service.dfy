/**
 * The popup's page-content request (`extractPageContent`) and its relay to
 * the background worker (`extractEvents`). The active tab's URL and the
 * replies that come back over Chrome messaging are parameters.
 */
module ExtractionService {
  import opened Wrappers
  import opened JsValues
  import opened Text
  import opened Records

  /** Schemes of pages an extension may not script. */
  const InvalidPrefixes := ["chrome://", "chrome-extension://", "edge://", "about:", "data:", "file://"]

  const InvalidPageMessage := "Cannot extract events from this page. Please navigate to a regular web page (http:// or https://)."
  const NoReceiverMarker := "Receiving end does not exist"
  const NoReceiverMessage := "Could not connect to the page. Please refresh the page and try again."
  const NoContentMessage := "Failed to extract page content"

  /** `isValidWebPage(url)`; `None` is an undefined URL. Every invalid
      prefix starts with one of `a`, `c`, `d`, `e`, `f`, so a URL starting with
      any other character, `http://` and `https://` among them, is valid. */
  predicate IsValidWebPage(url: Option<string>) {
    url.Some? && url.value != [] && !exists i | 0 <= i < |InvalidPrefixes| :: StartsWith(url.value, InvalidPrefixes[i])
  }

  /** The content script's answer `{ success, data, error }`. */
  datatype ContentResponse = ContentResponse(success: Json, data: PageContent, error: Json)

  /** The callback of `chrome.tabs.sendMessage`: `Failure(m)` when
      `chrome.runtime.lastError` is set with message `m`, otherwise the
      response, `None` when there is none. */
  function PageReply(reply: Result<Option<ContentResponse>, string>): (r: Result<PageContent, string>)
    ensures reply.Failure? && Contains(reply.error, NoReceiverMarker) ==> r == Failure(NoReceiverMessage)
    ensures reply.Failure? && !Contains(reply.error, NoReceiverMarker) ==> r == Failure(reply.error)
    ensures reply.Success? && reply.value.Some? && Truthy(reply.value.value.success) ==>
      r == Success(reply.value.value.data)
    ensures reply.Success? && (reply.value.None? || !Truthy(reply.value.value.success)) ==>
      r.Failure? &&
      (if reply.value.Some? && Truthy(reply.value.value.error) then r.error == ErrorText(reply.value.value.error)
       else r.error == NoContentMessage)
  {
    match reply
    case Failure(message) =>
      if Contains(message, NoReceiverMarker) then Failure(NoReceiverMessage) else Failure(message)
    case Success(None) => Failure(NoContentMessage)
    case Success(Some(response)) =>
      if Truthy(response.success) then Success(response.data)
      else if Truthy(response.error) then Failure(ErrorText(response.error))
      else Failure(NoContentMessage)
  }

  /** The message of `new Error(v)` for the string the content script sends;
      other values are not produced by it. */
  function ErrorText(v: Json): string {
    if v.JString? then v.s else ""
  }

  /** `extractPageContent()` with the active tab's URL and the content
      script's reply. A failed injection is ignored, as in the source. */
  function ExtractPageContent(url: Option<string>, reply: Result<Option<ContentResponse>, string>): (r: Step<PageContent>)
    ensures !IsValidWebPage(url) ==> r == Step([], Failure(InvalidPageMessage))
    ensures IsValidWebPage(url) ==> r == Step([InjectContentScript, RequestPageContent], PageReply(reply))
  {
    if !IsValidWebPage(url) then Step([], Failure(InvalidPageMessage))
    else Step([InjectContentScript, RequestPageContent], PageReply(reply))
  }

  /** `extractEvents(pageContent, apiKey)`: the worker's result, or the
      messaging error. */
  function ExtractEvents(worker: Step<seq<Event>>, lastError: Option<string>): (r: Step<seq<Event>>)
    ensures r.calls == [RequestEventExtraction] + worker.calls
    ensures lastError.Some? ==> r.result == Failure(lastError.value)
    ensures lastError.None? ==> r.result == worker.result
  {
    Step([RequestEventExtraction] + worker.calls, if lastError.Some? then Failure(lastError.value) else worker.result)
  }
}

module ExtractionServiceProperties {
  import opened Wrappers
  import opened Text
  import opened ExtractionService

  /** A valid address is a non-empty one with none of the refused
      prefixes, and every non-empty address whose first character starts
      none of them is valid. */
  lemma WebPageValidity(url: Option<string>)
    ensures IsValidWebPage(url) ==> url.Some? && url.value != []
    ensures IsValidWebPage(url) ==> forall i | 0 <= i < |InvalidPrefixes| :: !StartsWith(url.value, InvalidPrefixes[i])
    ensures url.Some? && url.value != [] && url.value[0] !in "acdef" ==> IsValidWebPage(url)
  {
    if url.Some? && url.value != [] && url.value[0] !in "acdef" {
      forall i | 0 <= i < |InvalidPrefixes| ensures !StartsWith(url.value, InvalidPrefixes[i]) {
        assert InvalidPrefixes[i][0] in "acdef";
      }
    }
  }

  /** Ordinary web pages are accepted. */
  lemma HttpPagesValid(rest: string)
    ensures IsValidWebPage(Some("http://" + rest))
    ensures IsValidWebPage(Some("https://" + rest))
  {
    var h, s := "http://" + rest, "https://" + rest;
    forall i | 0 <= i < |InvalidPrefixes| ensures !StartsWith(h, InvalidPrefixes[i]) && !StartsWith(s, InvalidPrefixes[i]) {
      assert h[0] == 'h' && s[0] == 'h';
    }
  }

  /** Browser, extension and local pages are refused, whatever follows the scheme. */
  lemma {:induction false} SystemPagesInvalid(i: int, rest: string)
    requires 0 <= i < |InvalidPrefixes|
    ensures !IsValidWebPage(Some(InvalidPrefixes[i] + rest))
  {
    assert StartsWith(InvalidPrefixes[i] + rest, InvalidPrefixes[i]);
  }

  /** The check is a case-sensitive prefix test: an upper-case scheme passes. */
  lemma UpperCaseSchemeAccepted()
    ensures IsValidWebPage(Some("CHROME://settings"))
  {
    var u := "CHROME://settings";
    forall i | 0 <= i < |InvalidPrefixes| ensures !StartsWith(u, InvalidPrefixes[i]) {
      assert u[0] == 'C';
    }
  }

  /** Nothing is asked of a page whose URL is missing or empty. */
  lemma MissingUrlMakesNoCall(reply: Result<Option<ContentResponse>, string>)
    ensures ExtractPageContent(None, reply).calls == []
    ensures ExtractPageContent(Some(""), reply).calls == []
  {
  }
}
