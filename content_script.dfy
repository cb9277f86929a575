/**
 * The two page readers of the content script: the visible-text cleanup
 * (`extractVisibleText`, from the point where the clone's `textContent`
 * is read) and `extractMetaInfo`. The document is given as the raw text,
 * the list of `<meta>` tags and the texts of the JSON-LD scripts, in
 * document order; `JSON.parse` is the parameter `parse`.
 */
module ContentScript {
  import opened Wrappers
  import opened JsValues
  import opened Text
  import opened Records

  const TextLimit := 100000
  const TruncationMarker := "... [truncated]"

  /** `text.replace(/\s+/g, ' ')`: every maximal run of white space becomes one space. */
  function Collapse(s: string): (r: string)
    ensures |r| <= |s|
    ensures s == [] <==> r == []
    ensures s != [] ==> (IsSpace(r[0]) <==> IsSpace(s[0]))
  {
    if s == [] then []
    else if IsSpace(s[0]) && |s| > 1 && IsSpace(s[1]) then Collapse(s[1..])
    else [if IsSpace(s[0]) then ' ' else s[0]] + Collapse(s[1..])
  }

  /** The characters that are not white space, in order. */
  function Visible(s: string): string {
    if s == [] then [] else (if IsSpace(s[0]) then [] else [s[0]]) + Visible(s[1..])
  }

  /** White space occurs only as single ' ' characters. */
  predicate SingleSpaced(s: string) {
    && (forall k | 0 <= k < |s| :: IsSpace(s[k]) ==> s[k] == ' ')
    && (forall k | 0 <= k < |s| - 1 :: !(IsSpace(s[k]) && IsSpace(s[k + 1])))
  }

  lemma {:induction false} CollapseSingleSpaced(s: string)
    ensures SingleSpaced(Collapse(s))
    decreases |s|
  {
    if s != [] {
      CollapseSingleSpaced(s[1..]);
      if !(IsSpace(s[0]) && |s| > 1 && IsSpace(s[1])) {
        var c := if IsSpace(s[0]) then ' ' else s[0];
        var r := [c] + Collapse(s[1..]);
        forall k | 0 <= k < |r| - 1 ensures !(IsSpace(r[k]) && IsSpace(r[k + 1])) {
          if k > 0 { assert r[k] == Collapse(s[1..])[k - 1] && r[k + 1] == Collapse(s[1..])[k]; }
        }
        forall k | 0 <= k < |r| ensures IsSpace(r[k]) ==> r[k] == ' ' {
          if k > 0 { assert r[k] == Collapse(s[1..])[k - 1]; }
        }
      }
    }
  }

  lemma {:induction false} VisibleConcat(a: string, b: string)
    ensures Visible(a + b) == Visible(a) + Visible(b)
    decreases |a|
  {
    if a != [] {
      assert (a + b)[1..] == a[1..] + b;
      VisibleConcat(a[1..], b);
    } else {
      assert a + b == b;
    }
  }

  lemma {:induction false} VisibleOfSpace(w: string)
    requires AllSpace(w)
    ensures Visible(w) == []
    decreases |w|
  {
    if w != [] {
      VisibleOfSpace(w[1..]);
    }
  }

  /** Collapsing white space loses no other character. */
  lemma {:induction false} CollapseKeepsVisible(s: string)
    ensures Visible(Collapse(s)) == Visible(s)
    decreases |s|
  {
    if s != [] {
      CollapseKeepsVisible(s[1..]);
      if !(IsSpace(s[0]) && |s| > 1 && IsSpace(s[1])) {
        var c := if IsSpace(s[0]) then ' ' else s[0];
        VisibleConcat([c], Collapse(s[1..]));
      }
    }
  }

  /** Trimming removes only white space. */
  lemma TrimKeepsVisible(s: string)
    ensures Visible(Trim(s)) == Visible(s)
  {
    var r := Trim(s);
    var i := LeadingSpace(s);
    assert s == s[..i] + r + s[i + |r|..];
    VisibleConcat(s[..i] + r, s[i + |r|..]);
    VisibleConcat(s[..i], r);
    VisibleOfSpace(s[..i]);
    VisibleOfSpace(s[i + |r|..]);
  }

  /** A slice of a single-spaced text is single-spaced. */
  lemma SliceSingleSpaced(s: string, i: nat, j: nat)
    requires SingleSpaced(s) && i <= j <= |s|
    ensures SingleSpaced(s[i..j])
  {
    var t := s[i..j];
    forall k | 0 <= k < |t| - 1 ensures !(IsSpace(t[k]) && IsSpace(t[k + 1])) {
      assert t[k] == s[i + k] && t[k + 1] == s[i + k + 1];
    }
    forall k | 0 <= k < |t| ensures IsSpace(t[k]) ==> t[k] == ' ' {
      assert t[k] == s[i + k];
    }
  }

  /** Collapsing a text that ends with a visible character: the rest of the
      text is collapsed on its own. */
  lemma {:induction false} CollapseConcat(a: string, x: string)
    requires a != [] && !IsSpace(a[|a| - 1])
    ensures Collapse(a + x) == Collapse(a) + Collapse(x)
    decreases |a|
  {
    if |a| == 1 {
      assert (a + x)[1..] == x;
      assert a[1..] == [];
    } else {
      assert (a + x)[1..] == a[1..] + x;
      assert (a + x)[1] == a[1];
      CollapseConcat(a[1..], x);
    }
  }

  /** A visible character is kept as it is. */
  lemma CollapseVisible(c: char, q: string)
    requires !IsSpace(c)
    ensures Collapse([c] + q) == [c] + Collapse(q)
  {
    assert ([c] + q)[1..] == q;
  }

  /** A whole run of white space, up to the next visible character or the
      end, becomes exactly one ' '. */
  lemma {:induction false} CollapseSpaceRun(w: string, q: string)
    requires w != [] && AllSpace(w) && (q == [] || !IsSpace(q[0]))
    ensures Collapse(w + q) == [' '] + Collapse(q)
    decreases |w|
  {
    assert (w + q)[1..] == w[1..] + q;
    if |w| > 1 {
      assert (w + q)[1] == w[1];
      CollapseSpaceRun(w[1..], q);
    } else {
      assert w[1..] + q == q;
    }
  }

  /** Collapsing keeps a visible last character. */
  lemma {:induction false} CollapseLast(a: string)
    requires a != [] && !IsSpace(a[|a| - 1])
    ensures Collapse(a) != [] && !IsSpace(Collapse(a)[|Collapse(a)| - 1])
    decreases |a|
  {
    if |a| > 1 {
      CollapseLast(a[1..]);
    }
  }

  /** Collapsing two words with white space between them. */
  lemma CollapseWordBreak(a: string, w: string, b: string)
    requires a != [] && !IsSpace(a[|a| - 1])
    requires w != [] && AllSpace(w)
    requires b != [] && !IsSpace(b[0])
    ensures Collapse(a + w + b) == Collapse(a) + " " + Collapse(b)
  {
    AppendAssoc(a, w, b);
    CollapseConcat(a, w + b);
    CollapseSpaceRun(w, b);
    AppendAssoc(Collapse(a), " ", Collapse(b));
  }

  /** The white space between two words of the page text becomes exactly one
      ' ' in the cleaned text: words are neither merged nor split further. */
  lemma CleanSeparatesWords(a: string, w: string, b: string)
    requires a != [] && !IsSpace(a[|a| - 1])
    requires w != [] && AllSpace(w)
    requires b != [] && !IsSpace(b[0])
    ensures Trim(Collapse(a + w + b)) == Trim(Collapse(a)) + " " + Trim(Collapse(b))
  {
    var m, ca, cb := Collapse(a + w + b), Collapse(a), Collapse(b);
    CollapseWordBreak(a, w, b);
    CollapseLast(a);
    WordsJoin(m, ca, cb);
  }

  lemma WordsJoin(m: string, ca: string, cb: string)
    requires m == ca + " " + cb
    requires ca != [] && !IsSpace(ca[|ca| - 1]) && cb != [] && !IsSpace(cb[0])
    ensures Trim(m) == Trim(ca) + " " + Trim(cb)
  {
    TrimAroundSpace(ca, cb);
  }

  /** The cleaned text: no white space at the ends, single spaces inside,
      and every other character of the page text in its order. */
  lemma CleanTextProperties(raw: string)
    ensures Trimmed(Trim(Collapse(raw)))
    ensures SingleSpaced(Trim(Collapse(raw)))
    ensures Visible(Trim(Collapse(raw))) == Visible(raw)
  {
    var c := Collapse(raw);
    CollapseSingleSpaced(raw);
    SliceSingleSpaced(c, LeadingSpace(c), LeadingSpace(c) + |Trim(c)|);
    CollapseKeepsVisible(raw);
    TrimKeepsVisible(c);
  }

  /** `extractVisibleText()` once the text content `raw` has been read. */
  method ExtractVisibleText(raw: string) returns (text: string)
    ensures var clean := Trim(Collapse(raw));
      && (|clean| <= TextLimit ==> text == clean)
      && (|clean| > TextLimit ==> text == clean[..TextLimit] + TruncationMarker)
    ensures |text| <= TextLimit + |TruncationMarker|
    ensures |Trim(Collapse(raw))| <= TextLimit ==>
      Trimmed(text) && SingleSpaced(text) && Visible(text) == Visible(raw)
    ensures |Trim(Collapse(raw))| > TextLimit ==>
      && StartsWith(text, Trim(Collapse(raw))[..TextLimit])
      && SingleSpaced(text[..TextLimit]) && !IsSpace(text[0])
  {
    CleanTextProperties(raw);
    SliceSingleSpaced(Trim(Collapse(raw)), 0, if |Trim(Collapse(raw))| > TextLimit then TextLimit else 0);
    text := Collapse(raw);
    text := Trim(text);
    if |text| > TextLimit {
      text := text[..TextLimit] + TruncationMarker;
    }
  }

  /** A `<meta>` tag's `name`, `property` and `content` attributes
      (`None` where `getAttribute` gives `null`). */
  datatype MetaTag = MetaTag(name: Option<string>, property: Option<string>, content: Option<string>)

  /** `tag.getAttribute('name') || tag.getAttribute('property')` */
  function TagKey(tag: MetaTag): Option<string> {
    if tag.name.Some? && tag.name.value != [] then tag.name else tag.property
  }

  /** The tag has a truthy key and a truthy content. */
  predicate Usable(tag: MetaTag) {
    TagKey(tag).Some? && TagKey(tag).value != [] && tag.content.Some? && tag.content.value != []
  }

  /** The five meta fields, named by the lower-cased key that fills each. */
  datatype MetaField = DescriptionField | KeywordsField | AuthorField | OgTitleField | OgDescriptionField

  function KeyOf(f: MetaField): string {
    match f
    case DescriptionField => "description"
    case KeywordsField => "keywords"
    case AuthorField => "author"
    case OgTitleField => "og:title"
    case OgDescriptionField => "og:description"
  }

  function FieldOf(m: MetaInfo, f: MetaField): string {
    match f
    case DescriptionField => m.description
    case KeywordsField => m.keywords
    case AuthorField => m.author
    case OgTitleField => m.ogTitle
    case OgDescriptionField => m.ogDescription
  }

  /** The tag fills field `f`. */
  predicate Fills(tag: MetaTag, f: MetaField) {
    Usable(tag) && Lower(TagKey(tag).value) == KeyOf(f)
  }

  const EmptyMeta := MetaInfo("", "", "", "", "", [])

  /** The body of the `forEach` over the meta tags: one `switch` on the
      lower-cased key. */
  function ApplyTag(m: MetaInfo, tag: MetaTag): (r: MetaInfo)
    ensures r.eventSchema == m.eventSchema
    ensures forall f :: FieldOf(r, f) == if Fills(tag, f) then tag.content.value else FieldOf(m, f)
  {
    if !Usable(tag) then m
    else
      var key, content := Lower(TagKey(tag).value), tag.content.value;
      if key == "description" then m.(description := content)
      else if key == "keywords" then m.(keywords := content)
      else if key == "author" then m.(author := content)
      else if key == "og:title" then m.(ogTitle := content)
      else if key == "og:description" then m.(ogDescription := content)
      else m
  }

  /** The meta record after the first tags, in document order. */
  function ApplyTags(m: MetaInfo, tags: seq<MetaTag>): (r: MetaInfo)
    ensures r.eventSchema == m.eventSchema
  {
    if tags == [] then m else ApplyTag(ApplyTags(m, tags[..|tags| - 1]), tags[|tags| - 1])
  }

  /** `data['@type'] === 'Event'` for an element that is not `null`. */
  predicate TypedEvent(v: Json) {
    v.JObject? && "@type" in v.fields && v.fields["@type"] == JString("Event")
  }

  /** `items.some(item => item['@type'] === 'Event')`, `false` when a `null`
      element is reached first (reading its `@type` throws, which the
      surrounding `catch` turns into skipping the block). */
  function SomeEvent(items: seq<Json>): (r: bool)
    ensures r <==> exists i | 0 <= i < |items| :: TypedEvent(items[i]) && forall j | 0 <= j < i :: items[j] != JNull
  {
    if items == [] then false
    else if items[0] == JNull then false
    else if TypedEvent(items[0]) then true
    else
      var r := SomeEvent(items[1..]);
      assert r ==> exists i | 0 <= i < |items| :: TypedEvent(items[i]) && forall j | 0 <= j < i :: items[j] != JNull by {
        if r {
          var i :| 0 <= i < |items[1..]| && TypedEvent(items[1..][i]) && forall j | 0 <= j < i :: items[1..][j] != JNull;
          assert forall j | 0 <= j < i + 1 :: items[j] != JNull by {
            forall j | 0 <= j < i + 1 ensures items[j] != JNull {
              if j > 0 { assert items[j] == items[1..][j - 1]; }
            }
          }
          assert TypedEvent(items[i + 1]);
        }
      }
      assert (exists i | 0 <= i < |items| :: TypedEvent(items[i]) && forall j | 0 <= j < i :: items[j] != JNull) ==> r by {
        if exists i | 0 <= i < |items| :: TypedEvent(items[i]) && forall j | 0 <= j < i :: items[j] != JNull {
          var i :| 0 <= i < |items| && TypedEvent(items[i]) && forall j | 0 <= j < i :: items[j] != JNull;
          assert i > 0;
          assert TypedEvent(items[1..][i - 1]);
          assert forall j | 0 <= j < i - 1 :: items[1..][j] != JNull by {
            forall j | 0 <= j < i - 1 ensures items[1..][j] != JNull {
              assert items[1..][j] == items[j + 1];
            }
          }
        }
      }
      r
  }

  /** The condition under which a parsed JSON-LD block is kept, with the
      `null` cases that throw counted as not kept. */
  predicate IsEventSchema(data: Json) {
    TypedEvent(data) || (data.JArray? && SomeEvent(data.items))
  }

  /** The blocks kept from the first scripts, in document order. */
  function EventBlocks(scripts: seq<string>, parse: string -> Option<Json>): seq<Json> {
    if scripts == [] then []
    else
      var kept := EventBlocks(scripts[..|scripts| - 1], parse);
      var data := parse(scripts[|scripts| - 1]);
      if data.Some? && IsEventSchema(data.value) then kept + [data.value] else kept
  }

  /** `extractMetaInfo()`: the meta tags fill the text fields one after the
      other, then each JSON-LD script that describes an event is appended. */
  method ExtractMetaInfo(tags: seq<MetaTag>, scripts: seq<string>, parse: string -> Option<Json>) returns (meta: MetaInfo)
    ensures meta == ApplyTags(EmptyMeta, tags).(eventSchema := EventBlocks(scripts, parse))
  {
    meta := EmptyMeta;
    var i := 0;
    while i < |tags|
      invariant 0 <= i <= |tags|
      invariant meta == ApplyTags(EmptyMeta, tags[..i])
    {
      assert tags[..i + 1][..i] == tags[..i];
      meta := ApplyTag(meta, tags[i]);
      i := i + 1;
    }
    assert tags[..|tags|] == tags;
    var j := 0;
    while j < |scripts|
      invariant 0 <= j <= |scripts|
      invariant meta == ApplyTags(EmptyMeta, tags).(eventSchema := EventBlocks(scripts[..j], parse))
    {
      assert scripts[..j + 1][..j] == scripts[..j];
      var data := parse(scripts[j]);
      if data.Some? && IsEventSchema(data.value) {
        meta := meta.(eventSchema := meta.eventSchema + [data.value]);
      }
      j := j + 1;
    }
    assert scripts[..|scripts|] == scripts;
  }
}

/** What the meta record holds and which JSON-LD blocks are kept. */
module ContentScriptProperties {
  import opened Wrappers
  import opened JsValues
  import opened Text
  import opened Records
  import opened ContentScript

  /** Each text field holds the content of the last tag that fills it, and
      stays empty when no tag does. */
  lemma {:induction false} LastTagWins(tags: seq<MetaTag>, f: MetaField)
    ensures (forall i | 0 <= i < |tags| :: !Fills(tags[i], f)) ==> FieldOf(ApplyTags(EmptyMeta, tags), f) == ""
    ensures forall i | 0 <= i < |tags| && Fills(tags[i], f) && (forall j | i < j < |tags| :: !Fills(tags[j], f)) ::
              FieldOf(ApplyTags(EmptyMeta, tags), f) == tags[i].content.value
    decreases |tags|
  {
    if tags != [] {
      var init, last := tags[..|tags| - 1], tags[|tags| - 1];
      LastTagWins(init, f);
      var m := ApplyTags(EmptyMeta, init);
      assert ApplyTags(EmptyMeta, tags) == ApplyTag(m, last);
      forall i | 0 <= i < |init| ensures init[i] == tags[i] { }
      forall i | 0 <= i < |tags| && Fills(tags[i], f) && (forall j | i < j < |tags| :: !Fills(tags[j], f))
        ensures FieldOf(ApplyTag(m, last), f) == tags[i].content.value
      {
        if i < |init| {
          assert !Fills(last, f);
          assert forall j | i < j < |init| :: !Fills(init[j], f);
        }
      }
    }
  }

  /** A tag whose key is none of the five, or that lacks a key or a content,
      leaves the record as it was. */
  lemma IgnoredTag(m: MetaInfo, tag: MetaTag)
    requires forall f :: !Fills(tag, f)
    ensures ApplyTag(m, tag) == m
  {
    var r := ApplyTag(m, tag);
    assert FieldOf(r, DescriptionField) == m.description;
    assert FieldOf(r, KeywordsField) == m.keywords;
    assert FieldOf(r, AuthorField) == m.author;
    assert FieldOf(r, OgTitleField) == m.ogTitle;
    assert FieldOf(r, OgDescriptionField) == m.ogDescription;
  }

  /** `c` is the lower-case key character `d` up to ASCII case; KELVIN SIGN
      also counts as `k`. */
  predicate CaseMatch(c: char, d: char) {
    c == d || ('a' <= d <= 'z' && c as int == d as int - 32) || (d == 'k' && c == '\U{212A}')
  }

  lemma LowerCharMatch(c: char, d: char)
    requires d as int < 128 && !('A' <= d <= 'Z')
    ensures LowerChar(c) == d <==> CaseMatch(c, d)
  {
  }

  /** The five keys are written in lower-case ASCII. */
  lemma KeysLowerCase(f: MetaField)
    ensures forall i | 0 <= i < |KeyOf(f)| :: KeyOf(f)[i] as int < 128 && !('A' <= KeyOf(f)[i] <= 'Z')
  {
  }

  /** The key is `name`, or `property` when `name` is missing or empty, and a
      tag fills a field exactly when it has a content and its key spells the
      field's key up to ASCII case. */
  lemma {:induction false} PropertyKeyCaseInsensitive(tag: MetaTag, f: MetaField)
    ensures (tag.name.None? || tag.name.value == []) ==> TagKey(tag) == tag.property
    ensures tag.name.Some? && tag.name.value != [] ==> TagKey(tag) == tag.name
    ensures Fills(tag, f) <==>
      && Usable(tag) && |TagKey(tag).value| == |KeyOf(f)|
      && forall i | 0 <= i < |KeyOf(f)| :: CaseMatch(TagKey(tag).value[i], KeyOf(f)[i])
  {
    if Usable(tag) {
      var k, key := TagKey(tag).value, KeyOf(f);
      KeysLowerCase(f);
      forall i | 0 <= i < |k| && i < |key| ensures LowerChar(k[i]) == key[i] <==> CaseMatch(k[i], key[i]) {
        LowerCharMatch(k[i], key[i]);
      }
      if |k| == |key| {
        assert (Lower(k) == key) <==> forall i | 0 <= i < |key| :: Lower(k)[i] == key[i];
      }
    }
  }

  /** `<meta property="OG:Title" content=c>` fills the Open Graph title, and
      so does a tag with an empty `name` and `property="og:title"`. */
  lemma OgTitleTags(c: string)
    requires c != []
    ensures Fills(MetaTag(None, Some("OG:Title"), Some(c)), OgTitleField)
    ensures Fills(MetaTag(Some(""), Some("og:title"), Some(c)), OgTitleField)
  {
    assert Lower("OG:Title") == "og:title";
    assert Lower("og:title") == "og:title";
  }

  /** Scripts are scanned in document order: the blocks kept from two runs
      of scripts are the blocks of the first run, then those of the second. */
  lemma {:induction false} BlocksInDocumentOrder(a: seq<string>, b: seq<string>, parse: string -> Option<Json>)
    ensures EventBlocks(a + b, parse) == EventBlocks(a, parse) + EventBlocks(b, parse)
    decreases |b|
  {
    if b == [] {
      assert a + b == a;
    } else {
      var b0 := b[..|b| - 1];
      assert (a + b)[..|a + b| - 1] == a + b0;
      assert (a + b)[|a + b| - 1] == b[|b| - 1];
      BlocksInDocumentOrder(a, b0, parse);
    }
  }

  /** Every kept block parsed from some script and describes an event. */
  lemma {:induction false} KeptBlocksAreEvents(scripts: seq<string>, parse: string -> Option<Json>)
    ensures |EventBlocks(scripts, parse)| <= |scripts|
    ensures forall k | 0 <= k < |EventBlocks(scripts, parse)| ::
              IsEventSchema(EventBlocks(scripts, parse)[k])
              && exists i | 0 <= i < |scripts| :: parse(scripts[i]) == Some(EventBlocks(scripts, parse)[k])
    decreases |scripts|
  {
    if scripts != [] {
      var init := scripts[..|scripts| - 1];
      KeptBlocksAreEvents(init, parse);
      var kept := EventBlocks(scripts, parse);
      forall k | 0 <= k < |kept|
        ensures exists i | 0 <= i < |scripts| :: parse(scripts[i]) == Some(kept[k])
      {
        if k < |EventBlocks(init, parse)| {
          var i :| 0 <= i < |init| && parse(init[i]) == Some(EventBlocks(init, parse)[k]);
          assert scripts[i] == init[i];
        } else {
          assert parse(scripts[|scripts| - 1]) == Some(kept[k]);
        }
      }
    }
  }

  /** An array block counts when an Event item comes before any `null`
      item, and not when a `null` item comes first. */
  lemma NullItemOrder(ev: Json)
    requires TypedEvent(ev)
    ensures IsEventSchema(JArray([ev, JNull]))
    ensures !IsEventSchema(JArray([JNull, ev]))
  {
    assert [ev, JNull][1..] == [JNull];
  }

  /** A `null` block (the text `null`) is skipped, since reading its `@type` throws. */
  lemma NullBlockSkipped()
    ensures !IsEventSchema(JNull)
  {
  }

  /** A block that describes an event, directly or as an array, is kept and
      appended last. */
  lemma EventBlockAppended(scripts: seq<string>, text: string, parse: string -> Option<Json>)
    requires parse(text).Some? && IsEventSchema(parse(text).value)
    ensures EventBlocks(scripts + [text], parse) == EventBlocks(scripts, parse) + [parse(text).value]
  {
    assert (scripts + [text])[..|scripts|] == scripts;
  }

  /** Conversely, every script that parses to an event schema has its block kept. */
  lemma {:induction false} EventScriptsKept(scripts: seq<string>, parse: string -> Option<Json>)
    ensures forall i | 0 <= i < |scripts| && parse(scripts[i]).Some? && IsEventSchema(parse(scripts[i]).value) ::
              parse(scripts[i]).value in EventBlocks(scripts, parse)
    decreases |scripts|
  {
    if scripts != [] {
      var init := scripts[..|scripts| - 1];
      EventScriptsKept(init, parse);
      forall i | 0 <= i < |init| ensures init[i] == scripts[i] { }
    }
  }
}
