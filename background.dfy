/**
 * `handleExtractEvents` in the background worker: refuse a missing key,
 * send one prompt to the language model, and turn the reply into event
 * records. The HTTP exchange is a parameter: `reply` is the text of the
 * first content block, or the message of the error the request ended in.
 */
module BackgroundWorker {
  import opened Wrappers
  import opened JsValues
  import opened Records
  import opened ResponseParser
  import opened PromptBuilder

  const ApiKeyRequiredMessage := "Anthropic API key is required. Please configure it in settings."
  const ParseFailedMessage := "Failed to parse event information from AI response"

  /** The worker's side of an `extractEvents` request; `apiKey` is whatever
      value the popup sent. */
  function HandleExtractEvents(page: PageContent, apiKey: Json, stringify: Json -> string,
                               reply: Result<string, string>, parse: string -> Option<Json>): (r: Step<seq<Event>>)
    ensures !Truthy(apiKey) ==> r == Step([], Failure(ApiKeyRequiredMessage))
    ensures Truthy(apiKey) ==> r.calls == [ModelRequest(BuildPrompt(page, stringify))]
    ensures Truthy(apiKey) && reply.Failure? ==> r.result == Failure(reply.error)
    ensures Truthy(apiKey) && reply.Success? ==>
      match ParseClaudeResponse(reply.value, parse)
      case Success(events) => r.result == Success(events)
      case Failure(_) => r.result == Failure(ParseFailedMessage)
  {
    if !Truthy(apiKey) then Step([], Failure(ApiKeyRequiredMessage))
    else
      var calls := [ModelRequest(BuildPrompt(page, stringify))];
      match reply
      case Failure(message) => Step(calls, Failure(message))
      case Success(content) =>
        match ParseClaudeResponse(content, parse)
        case Success(events) => Step(calls, Success(events))
        case Failure(_) => Step(calls, Failure(ParseFailedMessage))
  }
}

module BackgroundWorkerProperties {
  import opened Wrappers
  import opened JsValues
  import opened Records
  import opened ResponseParser
  import opened BackgroundWorker

  /** Whatever went wrong while parsing (bad JSON, not an array, a `null`
      element), the popup is told the same thing. */
  lemma ParseFailuresCollapse(page: PageContent, apiKey: Json, stringify: Json -> string,
                              c1: string, c2: string, parse: string -> Option<Json>)
    requires Truthy(apiKey)
    requires ParseClaudeResponse(c1, parse).Failure? && ParseClaudeResponse(c2, parse).Failure?
    ensures HandleExtractEvents(page, apiKey, stringify, Success(c1), parse)
            == HandleExtractEvents(page, apiKey, stringify, Success(c2), parse)
  {
  }

  /** A reply that is not JSON, or JSON that is not an array, ends in the
      collapsed message and not in the parser's own. */
  lemma NonArrayReplyRejected(page: PageContent, apiKey: Json, stringify: Json -> string,
                              content: string, parse: string -> Option<Json>)
    requires Truthy(apiKey)
    requires parse(ExtractJsonText(content)).None? || !parse(ExtractJsonText(content)).value.JArray?
    ensures HandleExtractEvents(page, apiKey, stringify, Success(content), parse).result == Failure(ParseFailedMessage)
  {
  }

  /** A worker result is either the records of some reply or an error
      message; records are never produced without asking the model. */
  lemma EventsOnlyFromModel(page: PageContent, apiKey: Json, stringify: Json -> string,
                            reply: Result<string, string>, parse: string -> Option<Json>)
    requires HandleExtractEvents(page, apiKey, stringify, reply, parse).result.Success?
    ensures |HandleExtractEvents(page, apiKey, stringify, reply, parse).calls| == 1
    ensures reply.Success?
    ensures HandleExtractEvents(page, apiKey, stringify, reply, parse).result.value
            == ParseClaudeResponse(reply.value, parse).value
  {
  }
}
