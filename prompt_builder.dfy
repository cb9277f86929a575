/**
 * `buildEventExtractionPrompt`: the single user message sent to the
 * language model. The template text is reproduced character for character;
 * `JSON.stringify(schema, null, 2)` is a parameter.
 */
module PromptBuilder {
  import opened JsValues
  import opened Text
  import opened Records

  /** How much of the visible text goes into the prompt. */
  const VisibleTextLimit := 15000

  /** The instructions that open the prompt, up to the page title. */
  const Intro :=
    "You are an AI assistant that extracts event information from web pages.\n"
    + "Analyze the following web page content and extract all event information you can find.\n"
    + "\n"
    + "For each event, extract:\n"
    + "- title: The event name/title\n"
    + "- description: A brief description of the event\n"
    + "- location: Where the event takes place (physical address or virtual link)\n"
    + "- startDateTime: Start date and time in ISO 8601 format (YYYY-MM-DDTHH:mm:ss)\n"
    + "- endDateTime: End date and time in ISO 8601 format (YYYY-MM-DDTHH:mm:ss)\n"
    + "- allDay: Boolean indicating if it's an all-day event\n"
    + "\n"
    + "If you cannot determine exact dates/times, make reasonable inferences or leave them as null.\n"
    + "\n"
    + "Page Title: "

  /** The answer format requested after the visible text. */
  const Instructions :=
    "\n\nRespond with a JSON array of events. Each event should have this structure:\n"
    + "{\n"
    + "  \"title\": \"string\",\n"
    + "  \"description\": \"string\",\n"
    + "  \"location\": \"string\",\n"
    + "  \"startDateTime\": \"ISO 8601 string or null\",\n"
    + "  \"endDateTime\": \"ISO 8601 string or null\",\n"
    + "  \"allDay\": boolean\n"
    + "}\n"
    + "\n"
    + "If no events are found, return an empty array: []\n"
    + "\n"
    + "IMPORTANT: Respond with ONLY the JSON array, no additional text or explanation."

  /** `s.substring(0, n)` for a non-negative `n`. */
  function Prefix(s: string, n: nat): (r: string)
    ensures |r| == if |s| <= n then |s| else n
    ensures StartsWith(s, r)
  {
    if |s| <= n then s else s[..n]
  }

  /** Everything up to the optional schema block. */
  function Head(page: PageContent): string {
    Intro + page.title + "\nPage URL: " + page.url + "\n\n"
  }

  /** The schema block, present only when the page declared JSON-LD events. */
  function SchemaBlock(schema: seq<Json>, stringify: Json -> string): string {
    if |schema| > 0 then "\nEvent Schema Data:\n" + stringify(JArray(schema)) + "\n" else ""
  }

  /** Everything after the optional schema block. */
  function Tail(page: PageContent): string {
    "\n\nVisible Text Content:\n" + Prefix(page.visibleText, VisibleTextLimit) + Instructions
  }

  /** The prompt for a page; `stringify` is `JSON.stringify(_, null, 2)`. */
  function BuildPrompt(page: PageContent, stringify: Json -> string): (r: string)
    ensures StartsWith(r, Head(page)) && EndsWith(r, Tail(page))
    ensures page.metaInfo.eventSchema == [] ==> |r| == |Head(page)| + |Tail(page)|
    ensures page.metaInfo.eventSchema != [] ==>
      var block := SchemaBlock(page.metaInfo.eventSchema, stringify);
      InfixAt(r, block, |Head(page)|) && |r| == |Head(page)| + |block| + |Tail(page)|
  {
    var h, b, t := Head(page), SchemaBlock(page.metaInfo.eventSchema, stringify), Tail(page);
    Assembled(h, b, t);
    h + b + t
  }

  lemma Assembled(h: string, b: string, t: string)
    ensures StartsWith(h + b + t, h) && EndsWith(h + b + t, t)
    ensures InfixAt(h + b + t, b, |h|) && |h + b + t| == |h| + |b| + |t|
  {
    assert (h + b + t)[..|h|] == h;
    assert (h + b + t)[|h + b + t| - |t|..] == t;
    InfixOfMiddle(h, b, t);
  }
}

/** What the prompt is guaranteed to contain and what it cannot depend on. */
module PromptBuilderProperties {
  import opened JsValues
  import opened Text
  import opened Records
  import opened PromptBuilder

  /** Two pages that differ only beyond the first 15000 characters of their
      visible text get the same prompt. */
  lemma {:induction false} OnlyPrefixOfTextMatters(page1: PageContent, page2: PageContent, stringify: Json -> string)
    requires page1.title == page2.title && page1.url == page2.url && page1.metaInfo == page2.metaInfo
    requires Prefix(page1.visibleText, VisibleTextLimit) == Prefix(page2.visibleText, VisibleTextLimit)
    ensures BuildPrompt(page1, stringify) == BuildPrompt(page2, stringify)
  {
    assert Tail(page1) == Tail(page2);
    assert Head(page1) == Head(page2);
  }

  /** The prompt of a page whose text is longer than the limit is the prompt
      of the same page cut at the limit. */
  lemma LongTextIsCut(page: PageContent, stringify: Json -> string)
    requires |page.visibleText| > VisibleTextLimit
    ensures BuildPrompt(page, stringify)
            == BuildPrompt(page.(visibleText := page.visibleText[..VisibleTextLimit]), stringify)
  {
    OnlyPrefixOfTextMatters(page, page.(visibleText := page.visibleText[..VisibleTextLimit]), stringify);
  }

  /** Without JSON-LD events the serialiser is never consulted. */
  lemma {:induction false} EmptySchemaIgnoresStringify(page: PageContent, s1: Json -> string, s2: Json -> string)
    requires page.metaInfo.eventSchema == []
    ensures BuildPrompt(page, s1) == BuildPrompt(page, s2)
  {
    assert SchemaBlock(page.metaInfo.eventSchema, s1) == SchemaBlock(page.metaInfo.eventSchema, s2);
  }

  /** The page title and the URL always appear verbatim. */
  lemma PageFactsEmbedded(page: PageContent, stringify: Json -> string)
    ensures Contains(BuildPrompt(page, stringify), page.title)
    ensures Contains(BuildPrompt(page, stringify), page.url)
  {
    HeadEmbeds(BuildPrompt(page, stringify), Intro, page.title, page.url);
  }

  lemma {:induction false} HeadEmbeds(r: string, intro: string, title: string, url: string)
    requires StartsWith(r, intro + title + "\nPage URL: " + url + "\n\n")
    ensures Contains(r, title) && Contains(r, url)
  {
    var rest := "\nPage URL: " + url + "\n\n";
    var h := intro + title + rest;
    assert InfixAt(r, h, 0);
    InfixOfMiddle(intro, title, rest);
    InfixWithin(r, h, 0, title, |intro|);
    var pre := intro + title + "\nPage URL: ";
    assert h == pre + url + "\n\n";
    InfixOfMiddle(pre, url, "\n\n");
    InfixWithin(r, h, 0, url, |pre|);
  }

  /** The first 15000 characters of the visible text always appear verbatim. */
  lemma VisibleTextEmbedded(page: PageContent, stringify: Json -> string)
    ensures Contains(BuildPrompt(page, stringify), Prefix(page.visibleText, VisibleTextLimit))
  {
    TailEmbeds(BuildPrompt(page, stringify), "\n\nVisible Text Content:\n", Prefix(page.visibleText, VisibleTextLimit), Instructions);
  }

  lemma {:induction false} TailEmbeds(r: string, heading: string, c: string, rest: string)
    requires EndsWith(r, heading + c + rest)
    ensures Contains(r, c)
  {
    var t := heading + c + rest;
    assert InfixAt(r, t, |r| - |t|);
    InfixOfMiddle(heading, c, rest);
    InfixWithin(r, t, |r| - |t|, c, |heading|);
  }
}
