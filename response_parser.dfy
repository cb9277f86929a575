/**
 * `parseClaudeResponse` of the background worker: strip an optional Markdown
 * code fence from the model's reply, parse it as JSON, insist on an array and
 * normalise every element with JavaScript `||` defaulting.
 *
 * The fence is found by the regular expression /```(?:json)?\s*([\s\S]*?)```/
 * applied to the trimmed reply; it is modelled exactly: the leftmost run of
 * three back-ticks that has another such run at least three characters
 * further on opens the block, the nearest such run closes it, an optional
 * `json` tag and then all white space after the opening fence are skipped,
 * and the captured text in between is trimmed.
 */
module ResponseParser {
  import opened Wrappers
  import opened JsValues
  import opened Text
  import opened Records

  /** Three back-ticks start at position `i`. */
  predicate FenceAt(s: string, i: int) {
    0 <= i && i + 3 <= |s| && s[i] == '`' && s[i + 1] == '`' && s[i + 2] == '`'
  }

  predicate NoFence(s: string) {
    forall k | 0 <= k < |s| :: !FenceAt(s, k)
  }

  /** The first fence at or after `from`. */
  function FindFence(s: string, from: nat): (r: Option<nat>)
    ensures r.Some? ==> from <= r.value && FenceAt(s, r.value)
    ensures forall k :: from <= k && FenceAt(s, k) ==> r.Some? && r.value <= k
    decreases |s| - from
  {
    if |s| < from + 3 then None
    else if FenceAt(s, from) then Some(from)
    else FindFence(s, from + 1)
  }

  /** Some fence is followed, three or more characters later, by another. */
  predicate HasBlock(s: string) {
    exists i, k | 0 <= i < k < |s| :: FenceAt(s, i) && FenceAt(s, k) && i + 3 <= k
  }

  /** `open` is the leftmost fence and `close` the first fence after it that
      does not overlap it: where the regular expression matches. */
  predicate IsFirstBlock(s: string, open: int, close: int) {
    && FenceAt(s, open) && FenceAt(s, close) && open + 3 <= close
    && (forall k :: 0 <= k < open ==> !FenceAt(s, k))
    && (forall k :: open + 3 <= k < close ==> !FenceAt(s, k))
  }

  /** The regular-expression match, as the pair of fence positions. */
  function FirstBlock(s: string): (r: Option<(nat, nat)>)
    ensures r.None? <==> !HasBlock(s)
    ensures r.Some? ==> IsFirstBlock(s, r.value.0, r.value.1)
  {
    match FindFence(s, 0)
    case None => None
    case Some(open) =>
      match FindFence(s, open + 3)
      case None =>
        assert !HasBlock(s) by {
          forall i, k | FenceAt(s, i) && FenceAt(s, k) ensures i + 3 > k {
            assert open <= i;
          }
        }
        None
      case Some(close) => Some((open, close))
  }

  /** Where the captured group starts: after the opening fence, the optional
      `json` tag and the greedy `\s*`. */
  function GroupStart(s: string, open: nat, close: nat): (g: nat)
    requires IsFirstBlock(s, open, close)
    ensures open + 3 <= TagEnd(s, open) <= g <= close
    ensures AllSpace(s[TagEnd(s, open)..g])
    ensures g < close ==> !IsSpace(s[g])
  {
    var t := TagEnd(s, open);
    assert t <= close by {
      if t == open + 7 {
        assert s[open + 3..open + 7] == "json";
        assert s[open + 3] == 'j' && s[open + 4] == 's' && s[open + 5] == 'o' && s[open + 6] == 'n';
      }
    }
    var n := LeadingSpace(s[t..]);
    var g := t + n;
    assert s[t..][..n] == s[t..g];
    assert g < |s| ==> s[t..][n] == s[g];
    g
  }

  /** Position just after the opening fence and, when present, its `json` tag. */
  function TagEnd(s: string, open: nat): (t: nat)
    requires open + 3 <= |s|
    ensures t == open + 3 || (t == open + 7 && t <= |s| && s[open + 3..t] == "json")
    ensures t == open + 7 <==> StartsWith(s[open + 3..], "json")
  {
    if StartsWith(s[open + 3..], "json") then open + 7 else open + 3
  }

  /** The text handed to `JSON.parse`: the trimmed reply, or the trimmed
      content of its first fenced block when it has one. */
  function ExtractJsonText(content: string): (r: string)
    ensures Trimmed(r)
    ensures !HasBlock(Trim(content)) ==> r == Trim(content)
    ensures forall open, close :: IsFirstBlock(Trim(content), open, close) ==>
              r == Trim(Trim(content)[GroupStart(Trim(content), open, close)..close])
  {
    var t := Trim(content);
    match FirstBlock(t)
    case None => t
    case Some((open, close)) =>
      forall o, c | IsFirstBlock(t, o, c) ensures o == open && c == close {
        FirstBlockUnique(t, o, c, open, close);
      }
      Trim(t[GroupStart(t, open, close)..close])
  }

  lemma FirstBlockUnique(s: string, o1: int, c1: int, o2: int, c2: int)
    requires IsFirstBlock(s, o1, c1) && IsFirstBlock(s, o2, c2)
    ensures o1 == o2 && c1 == c2
  {
  }

  /** The message `parseClaudeResponse` throws for a non-array. */
  const NotAnArrayMessage := "Expected an array of events"

  /** Why parsing failed: `JSON.parse` threw, the value is not an array
      (NotAnArrayMessage), or an element is `null`, so that reading
      `event.title` throws a TypeError. */
  datatype ParseError = MalformedJson | NotAnArray | NullElement

  /** `event.key` for an element that is not `null`; `None` is `undefined`. */
  function Field(e: Json, key: string): Option<Json> {
    if e.JObject? && key in e.fields then Some(e.fields[key]) else None
  }

  const UntitledEvent := JString("Untitled Event")

  /** Every field holds either a truthy value or its default. */
  predicate WellFormed(ev: Event) {
    && Truthy(ev.title)
    && (Truthy(ev.description) || ev.description == JString(""))
    && (Truthy(ev.location) || ev.location == JString(""))
    && (Truthy(ev.startDateTime) || ev.startDateTime == JNull)
    && (Truthy(ev.endDateTime) || ev.endDateTime == JNull)
    && (Truthy(ev.allDay) || ev.allDay == JBool(false))
  }

  /** The callback of `events.map`: each field is the element's own value
      when that is truthy and the field's default otherwise. */
  function NormalizeEvent(e: Json): (r: Result<Event, JsError>)
    ensures r.Failure? <==> e.JNull?
    ensures r.Success? ==> WellFormed(r.value)
    ensures r.Success? ==>
      && (TruthyProp(Field(e, "title")) ==> r.value.title == Field(e, "title").value)
      && (!TruthyProp(Field(e, "title")) ==> r.value.title == UntitledEvent)
      && (TruthyProp(Field(e, "description")) ==> r.value.description == Field(e, "description").value)
      && (!TruthyProp(Field(e, "description")) ==> r.value.description == JString(""))
      && (TruthyProp(Field(e, "location")) ==> r.value.location == Field(e, "location").value)
      && (!TruthyProp(Field(e, "location")) ==> r.value.location == JString(""))
      && (TruthyProp(Field(e, "startDateTime")) ==> r.value.startDateTime == Field(e, "startDateTime").value)
      && (!TruthyProp(Field(e, "startDateTime")) ==> r.value.startDateTime == JNull)
      && (TruthyProp(Field(e, "endDateTime")) ==> r.value.endDateTime == Field(e, "endDateTime").value)
      && (!TruthyProp(Field(e, "endDateTime")) ==> r.value.endDateTime == JNull)
      && (TruthyProp(Field(e, "allDay")) ==> r.value.allDay == Field(e, "allDay").value)
      && (!TruthyProp(Field(e, "allDay")) ==> r.value.allDay == JBool(false))
  {
    if e.JNull? then Failure(TypeError)
    else
      Success(Event(
        OrElse(Field(e, "title"), UntitledEvent),
        OrElse(Field(e, "description"), JString("")),
        OrElse(Field(e, "location"), JString("")),
        OrElse(Field(e, "startDateTime"), JNull),
        OrElse(Field(e, "endDateTime"), JNull),
        OrElse(Field(e, "allDay"), JBool(false))))
  }

  /** `events.map(...)`: one record per element, in order; the first `null`
      element aborts the whole map. */
  function NormalizeAll(items: seq<Json>): (r: Result<seq<Event>, JsError>)
    ensures r.Success? <==> forall i | 0 <= i < |items| :: !items[i].JNull?
    ensures r.Success? ==> |r.value| == |items|
    ensures r.Success? ==> forall i | 0 <= i < |items| :: NormalizeEvent(items[i]) == Success(r.value[i])
  {
    if items == [] then Success([])
    else
      match NormalizeEvent(items[0])
      case Failure(err) => Failure(err)
      case Success(ev) =>
        match NormalizeAll(items[1..])
        case Failure(err) =>
          assert exists i | 1 <= i < |items| :: items[i].JNull? by {
            var j :| 0 <= j < |items[1..]| && items[1..][j].JNull?;
            assert items[j + 1].JNull?;
          }
          Failure(err)
        case Success(rest) =>
          assert forall i | 1 <= i < |items| :: items[i] == items[1..][i - 1];
          Success([ev] + rest)
  }

  /** What `parseClaudeResponse` makes of the value `JSON.parse` returned
      (`None` when it threw). */
  function ParseParsed(p: Option<Json>): (r: Result<seq<Event>, ParseError>)
    ensures p.None? ==> r == Failure(MalformedJson)
    ensures p.Some? && !p.value.JArray? ==> r == Failure(NotAnArray)
    ensures p.Some? && p.value.JArray? ==>
      && (r.Success? <==> forall i | 0 <= i < |p.value.items| :: p.value.items[i] != JNull)
      && (r.Failure? ==> r.error == NullElement)
    ensures r.Success? ==>
      && p.Some? && p.value.JArray?
      && |r.value| == |p.value.items|
      && forall i | 0 <= i < |r.value| :: NormalizeEvent(p.value.items[i]) == Success(r.value[i])
  {
    match p
    case None => Failure(MalformedJson)
    case Some(v) =>
      if !v.JArray? then Failure(NotAnArray)
      else
        match NormalizeAll(v.items)
        case Failure(_) => Failure(NullElement)
        case Success(events) => Success(events)
  }

  /** `parseClaudeResponse(content)` with `JSON.parse` given as `parse`
      (`None` when it throws). */
  function ParseClaudeResponse(content: string, parse: string -> Option<Json>): (r: Result<seq<Event>, ParseError>)
    ensures var p := parse(ExtractJsonText(content));
      && (p.None? ==> r == Failure(MalformedJson))
      && (p.Some? && !p.value.JArray? ==> r == Failure(NotAnArray))
      && (p.Some? && p.value.JArray? ==>
            && (r.Success? <==> forall i | 0 <= i < |p.value.items| :: p.value.items[i] != JNull)
            && (r.Failure? ==> r.error == NullElement))
      && (r.Success? ==>
            && p.Some? && p.value.JArray?
            && |r.value| == |p.value.items|
            && forall i | 0 <= i < |r.value| :: NormalizeEvent(p.value.items[i]) == Success(r.value[i]))
  {
    ParseParsed(parse(ExtractJsonText(content)))
  }
}

/** Properties of the parser: the fence rules and the defaulting rules. */
module ResponseParserProperties {
  import opened Wrappers
  import opened JsValues
  import opened Text
  import opened Records
  import opened ResponseParser

  predicate NoTicks(s: string) {
    forall k | 0 <= k < |s| :: s[k] != '`'
  }

  /** Text that looks like a JSON array from the outside. */
  predicate ArrayText(s: string) {
    |s| >= 2 && s[0] == '[' && s[|s| - 1] == ']'
  }

  /** A fence cannot start inside `x` unless `x` holds one or ends in a back-tick. */
  lemma NoFenceStraddle(x: string, y: string)
    requires NoFence(x) && (x == [] || x[|x| - 1] != '`')
    ensures forall k | 0 <= k < |x| :: !FenceAt(x + y, k)
  {
    forall k | 0 <= k < |x| ensures !FenceAt(x + y, k) {
      if k + 3 <= |x| {
        assert !FenceAt(x, k);
        assert (x + y)[k] == x[k] && (x + y)[k + 1] == x[k + 1] && (x + y)[k + 2] == x[k + 2];
      } else {
        assert (x + y)[|x| - 1] == x[|x| - 1];
      }
    }
  }

  lemma FenceShift(a: string, b: string, j: int)
    requires 0 <= j
    ensures FenceAt(a + b, |a| + j) == FenceAt(b, j)
  {
    if j + 3 <= |b| {
      assert (a + b)[|a| + j] == b[j] && (a + b)[|a| + j + 1] == b[j + 1] && (a + b)[|a| + j + 2] == b[j + 2];
    }
  }

  /** Back-tick-free text around a fence-free middle adds no fence. */
  lemma NoFenceAround(a: string, b: string, c: string)
    requires NoTicks(a) && NoFence(b) && NoTicks(c)
    ensures NoFence(a + b + c)
  {
    var s := a + b + c;
    forall k | 0 <= k < |s| ensures !FenceAt(s, k) {
      if k < |a| {
        assert s[k] == a[k];
      } else if k + 2 >= |a| + |b| {
        if k + 2 < |s| { assert s[k + 2] == c[k + 2 - |a| - |b|]; }
      } else {
        assert !FenceAt(b, k - |a|);
        assert s[k] == b[k - |a|] && s[k + 1] == b[k + 1 - |a|] && s[k + 2] == b[k + 2 - |a|];
      }
    }
  }

  lemma SpacesHaveNoTicks(w: string)
    requires AllSpace(w)
    ensures NoTicks(w)
  {
    forall k | 0 <= k < |w| ensures w[k] != '`' {
      assert IsSpace(w[k]);
    }
  }

  /** A reply whose only fence is never closed is parsed as it stands,
      fence and all. */
  lemma {:induction false} UnclosedFenceKept(body: string)
    requires NoTicks(body) && Trimmed(body) && body != []
    ensures ExtractJsonText("```json\n" + body) == Trim("```json\n" + body)
  {
    var s := "```json\n" + body;
    assert s[0] == '`' && s[|s| - 1] == body[|body| - 1];
    TrimmedIsItself(s);
    assert !HasBlock(s) by {
      forall i, k | 0 <= i < k < |s| && FenceAt(s, i) && i + 3 <= k ensures !FenceAt(s, k) {
        LastFenceOfUnclosed(body, s, k);
      }
    }
  }

  lemma TrimmedIsItself(s: string)
    requires Trimmed(s)
    ensures Trim(s) == s
  {
    TrimPadded([], s, []);
    assert [] + s + [] == s;
  }

  lemma LastFenceOfUnclosed(body: string, s: string, k: int)
    requires NoTicks(body) && s == "```json\n" + body && 3 <= k
    ensures !FenceAt(s, k)
  {
    if k + 3 <= |s| {
      if k < 8 {
        assert "```json\n"[k] != '`';
        assert s[k] == "```json\n"[k];
      } else {
        assert s[k] == body[k - 8];
      }
    }
  }

  /** Trimming a reply whose middle part starts and ends visibly trims only
      the outer parts. */
  lemma TrimAroundBlock(pre: string, f: string, post: string)
    requires f != [] && !IsSpace(f[0]) && !IsSpace(f[|f| - 1])
    ensures Trim(pre + f + post) == TrimStart(pre) + f + TrimEnd(post)
  {
    assert pre + f + post == pre + (f + post);
    TrimStartConcat(pre, f + post);
    assert TrimStart(pre) + (f + post) == (TrimStart(pre) + f) + post;
    TrimEndConcat(TrimStart(pre) + f, post);
  }

  /** What trimming leaves of a fence-free prefix is still fence-free and
      ends the way the prefix did. */
  lemma TrimStartKeepsNoFence(pre: string)
    requires NoFence(pre) && (pre == [] || pre[|pre| - 1] != '`')
    ensures NoFence(TrimStart(pre))
    ensures TrimStart(pre) == [] || TrimStart(pre)[|TrimStart(pre)| - 1] != '`'
  {
    var l := LeadingSpace(pre);
    var p := TrimStart(pre);
    assert pre == pre[..l] + p;
    forall k | 0 <= k < |p| ensures !FenceAt(p, k) {
      FenceShift(pre[..l], p, k);
    }
    assert p == [] || p[|p| - 1] == pre[|pre| - 1];
  }

  /** The middle of a fenced block: tag, white space, the array, white space. */
  lemma BlockMiddle(tag: string, w1: string, body: string, w2: string)
    requires tag == "" || tag == "json"
    requires AllSpace(w1) && AllSpace(w2)
    requires ArrayText(body) && NoFence(body)
    ensures NoFence(tag + w1 + body + w2)
    ensures (tag + w1 + body + w2)[|tag + w1 + body + w2| - 1] != '`'
  {
    var r := tag + w1 + body + w2;
    SpacesHaveNoTicks(w1);
    SpacesHaveNoTicks(w2);
    assert NoTicks(tag + w1);
    NoFenceAround(tag + w1, body, w2);
    assert r == (tag + w1) + body + w2;
    if w2 == [] { assert r[|r| - 1] == body[|body| - 1]; }
    else { assert r[|r| - 1] == w2[|w2| - 1]; }
  }

  /** Where the regular expression matches in `p + fence + r + fence + q`. */
  lemma BlockPosition(p: string, r: string, q: string)
    requires NoFence(p) && (p == [] || p[|p| - 1] != '`')
    requires NoFence(r) && r != [] && r[|r| - 1] != '`'
    ensures IsFirstBlock(p + ("```" + (r + ("```" + q))), |p|, |p| + 3 + |r|)
  {
    var y2 := r + ("```" + q);
    var y1 := "```" + y2;
    OpeningFence(p, y1);
    ClosingFence(p, r, q);
    FenceFreeBody(p, r, q);
  }

  lemma OpeningFence(p: string, y1: string)
    requires NoFence(p) && (p == [] || p[|p| - 1] != '`')
    requires |y1| >= 3 && y1[..3] == "```"
    ensures FenceAt(p + y1, |p|)
    ensures forall k :: 0 <= k < |p| ==> !FenceAt(p + y1, k)
  {
    FenceShift(p, y1, 0);
    assert y1[0] == '`' && y1[1] == '`' && y1[2] == '`' by {
      assert y1[..3][0] == y1[0] && y1[..3][1] == y1[1] && y1[..3][2] == y1[2];
    }
    NoFenceStraddle(p, y1);
  }

  lemma ClosingFence(p: string, r: string, q: string)
    ensures FenceAt(p + ("```" + (r + ("```" + q))), |p| + 3 + |r|)
  {
    var y2 := r + ("```" + q);
    FenceShift([], "```" + q, 0);
    assert [] + ("```" + q) == "```" + q;
    FenceShift(r, "```" + q, 0);
    FenceShift("```", y2, |r|);
    FenceShift(p, "```" + y2, 3 + |r|);
  }

  lemma FenceFreeBody(p: string, r: string, q: string)
    requires NoFence(r) && (r == [] || r[|r| - 1] != '`')
    ensures forall k :: |p| + 3 <= k < |p| + 3 + |r| ==> !FenceAt(p + ("```" + (r + ("```" + q))), k)
  {
    var y2 := r + ("```" + q);
    var y1 := "```" + y2;
    NoFenceStraddle(r, "```" + q);
    forall k | |p| + 3 <= k < |p| + 3 + |r| ensures !FenceAt(p + y1, k) {
      FenceShift(p, y1, k - |p|);
      FenceShift("```", y2, k - |p| - 3);
    }
  }

  lemma ArrayTextTrimmed(body: string)
    requires ArrayText(body)
    ensures Trimmed(body)
  {
  }

  /** The text between the tag and the closing fence. */
  lemma AfterTag(p: string, tag: string, w1: string, body: string, w2: string, q: string)
    requires tag == "" || tag == "json"
    requires AllSpace(w1) && ArrayText(body)
    ensures var t := p + ("```" + ((tag + w1 + body + w2) + ("```" + q)));
            && TagEnd(t, |p|) <= |p| + 3 + |tag + w1 + body + w2|
            && t[TagEnd(t, |p|)..|p| + 3 + |tag + w1 + body + w2|] == w1 + body + w2
  {
    var r := tag + w1 + body + w2;
    var t := p + ("```" + (r + ("```" + q)));
    var o := |p|;
    var te := TagEnd(t, o);
    assert t[o + 3..] == r + ("```" + q);
    assert t[o + 3..o + 3 + |r|] == r;
    if tag == "json" {
      assert t[o + 3..][..4] == "json";
      assert te == o + 7;
      assert r == "json" + (w1 + body + w2);
    } else {
      assert t[o + 3..][0] != 'j' by {
        if w1 == [] { assert t[o + 3..][0] == body[0]; }
        else { assert t[o + 3..][0] == w1[0]; assert IsSpace(w1[0]); }
      }
      assert te == o + 3;
      assert r == w1 + body + w2;
    }
  }

  lemma ExtractAt(content: string, t: string, o: nat, c: nat)
    requires Trim(content) == t && IsFirstBlock(t, o, c)
    ensures ExtractJsonText(content) == Trim(t[GroupStart(t, o, c)..c])
  {
  }

  /** The captured group of that match, once trimmed, is the array text. */
  lemma GroupIsBody(t: string, o: nat, c: nat, te: nat, w1: string, body: string, w2: string)
    requires IsFirstBlock(t, o, c)
    requires te == TagEnd(t, o) && te <= c && t[te..c] == w1 + body + w2
    requires AllSpace(w1) && AllSpace(w2) && ArrayText(body)
    ensures Trim(t[GroupStart(t, o, c)..c]) == body
  {
    var g := GroupStart(t, o, c);
    assert t[te..c] == t[te..g] + t[g..c];
    TrimIgnoresLeadingSpace(t[te..g], t[g..c]);
    ArrayTextTrimmed(body);
    TrimPadded(w1, body, w2);
  }

  /** The reply regrouped around its middle part. */
  lemma Regroup(pre: string, tag: string, w1: string, body: string, w2: string, post: string)
    ensures pre + "```" + tag + w1 + body + w2 + "```" + post
            == pre + ("```" + (tag + w1 + body + w2) + "```") + post
  {
  }

  /** Trimming a reply around a fenced block keeps the block whole. */
  lemma TrimFenced(pre: string, r: string, post: string)
    ensures Trim(pre + ("```" + r + "```") + post)
            == TrimStart(pre) + ("```" + (r + ("```" + TrimEnd(post))))
  {
    var f := "```" + r + "```";
    assert f[0] == '`' && f[|f| - 1] == '`';
    TrimAroundBlock(pre, f, post);
    Nest(TrimStart(pre), r, TrimEnd(post));
  }

  lemma Nest(p: string, r: string, q: string)
    ensures p + ("```" + r + "```") + q == p + ("```" + (r + ("```" + q)))
  {
  }

  /** In trimmed text that opens with a fence-free prefix, the first match of
      the regular expression is the block, and its group trims to the array. */
  lemma BlockGroup(p: string, tag: string, w1: string, body: string, w2: string, q: string, t: string, c: nat)
    requires NoFence(p) && (p == [] || p[|p| - 1] != '`')
    requires tag == "" || tag == "json"
    requires AllSpace(w1) && AllSpace(w2)
    requires ArrayText(body) && NoFence(body)
    requires t == p + ("```" + ((tag + w1 + body + w2) + ("```" + q)))
    requires c == |p| + 3 + |tag + w1 + body + w2|
    ensures IsFirstBlock(t, |p|, c)
    ensures Trim(t[GroupStart(t, |p|, c)..c]) == body
  {
    var r := tag + w1 + body + w2;
    BlockMiddle(tag, w1, body, w2);
    BlockPosition(p, r, q);
    AfterTag(p, tag, w1, body, w2, q);
    var te := TagEnd(t, |p|);
    GroupIsBody(t, |p|, c, te, w1, body, w2);
  }

  /** A JSON array wrapped in a fenced block (tagged `json` or not, with any
      white space inside the fence and any text before or after it) yields
      exactly the text the bare array yields. */
  lemma {:induction false} FencedEqualsBare(pre: string, tag: string, w1: string, body: string, w2: string, post: string)
    requires NoFence(pre) && (pre == [] || pre[|pre| - 1] != '`')
    requires tag == "" || tag == "json"
    requires AllSpace(w1) && AllSpace(w2)
    requires ArrayText(body) && NoFence(body)
    ensures ExtractJsonText(pre + "```" + tag + w1 + body + w2 + "```" + post) == body
    ensures ExtractJsonText(body) == body
  {
    BareArrayKept(body);
    Regroup(pre, tag, w1, body, w2, post);
    FencedBlock(pre, tag, w1, body, w2, post);
  }

  lemma FencedBlock(pre: string, tag: string, w1: string, body: string, w2: string, post: string)
    requires NoFence(pre) && (pre == [] || pre[|pre| - 1] != '`')
    requires tag == "" || tag == "json"
    requires AllSpace(w1) && AllSpace(w2)
    requires ArrayText(body) && NoFence(body)
    ensures ExtractJsonText(pre + ("```" + (tag + w1 + body + w2) + "```") + post) == body
  {
    var r := tag + w1 + body + w2;
    var content := pre + ("```" + r + "```") + post;
    TrimFenced(pre, r, post);
    var p, q := TrimStart(pre), TrimEnd(post);
    var t := p + ("```" + (r + ("```" + q)));
    TrimStartKeepsNoFence(pre);
    var o, c := |p|, |p| + 3 + |r|;
    BlockGroup(p, tag, w1, body, w2, q, t, c);
    ExtractAt(content, t, o, c);
  }

  /** A bare JSON array without fences is taken as it stands. */
  lemma BareArrayKept(body: string)
    requires ArrayText(body) && NoFence(body)
    ensures ExtractJsonText(body) == body
  {
    ArrayTextTrimmed(body);
    TrimPadded([], body, []);
    assert [] + body + [] == body;
  }

  /** The fenced and the bare reply are parsed alike, whatever `JSON.parse` does. */
  lemma FencedParsesAsBare(pre: string, tag: string, w1: string, body: string, w2: string, post: string,
                           parse: string -> Option<Json>)
    requires NoFence(pre) && (pre == [] || pre[|pre| - 1] != '`')
    requires tag == "" || tag == "json"
    requires AllSpace(w1) && AllSpace(w2)
    requires ArrayText(body) && NoFence(body)
    ensures ParseClaudeResponse(pre + "```" + tag + w1 + body + w2 + "```" + post, parse)
            == ParseClaudeResponse(body, parse)
  {
    FencedEqualsBare(pre, tag, w1, body, w2, post);
  }

  /** A record as `JSON.stringify` would hand it back to the parser. */
  function EventToJson(ev: Event): (j: Json)
    ensures Field(j, "title") == Some(ev.title)
    ensures Field(j, "description") == Some(ev.description)
    ensures Field(j, "location") == Some(ev.location)
    ensures Field(j, "startDateTime") == Some(ev.startDateTime)
    ensures Field(j, "endDateTime") == Some(ev.endDateTime)
    ensures Field(j, "allDay") == Some(ev.allDay)
  {
    JObject(map["title" := ev.title, "description" := ev.description, "location" := ev.location,
                "startDateTime" := ev.startDateTime, "endDateTime" := ev.endDateTime, "allDay" := ev.allDay])
  }

  /** Normalising an already normalised record changes nothing: the defaults
      are fixed points of the defaulting rules. */
  lemma NormalizeIdempotent(ev: Event)
    requires WellFormed(ev)
    ensures NormalizeEvent(EventToJson(ev)) == Success(ev)
  {
    var r := NormalizeEvent(EventToJson(ev));
    assert r.value.title == ev.title;
    assert r.value.description == ev.description;
    assert r.value.location == ev.location;
    assert r.value.startDateTime == ev.startDateTime;
    assert r.value.endDateTime == ev.endDateTime;
    assert r.value.allDay == ev.allDay;
  }

  /** The output records themselves, serialised again, parse back to themselves. */
  lemma ReparseIsIdentity(events: seq<Event>)
    requires forall i | 0 <= i < |events| :: WellFormed(events[i])
    ensures NormalizeAll(seq(|events|, i requires 0 <= i < |events| => EventToJson(events[i]))) == Success(events)
  {
    var items := seq(|events|, i requires 0 <= i < |events| => EventToJson(events[i]));
    forall i | 0 <= i < |items| ensures NormalizeEvent(items[i]) == Success(events[i]) {
      NormalizeIdempotent(events[i]);
    }
    var r := NormalizeAll(items);
    assert r.Success?;
    assert r.value == events;
  }

  const TalkIntro := "Here are the events:\n"
  const TalkArray := "[{\"title\":\"Talk\"}]"
  /** The example reply: an introduction, then the array in a `json` fence. */
  const TalkReply := TalkIntro + "```" + "json" + "\n" + TalkArray + "\n" + "```"
  const TalkObject := JObject(map["title" := JString("Talk")])
  const TalkEvent := Event(JString("Talk"), JString(""), JString(""), JNull, JNull, JBool(false))

  /** The text cut out of the example reply is the array inside the fence. */
  lemma TalkText()
    ensures ExtractJsonText(TalkReply) == TalkArray
  {
    assert NoFence(TalkIntro);
    assert NoFence(TalkArray);
    FencedEqualsBare(TalkIntro, "json", "\n", TalkArray, "\n", "");
    EmptySuffix(TalkReply);
  }

  lemma EmptySuffix(s: string)
    ensures s + "" == s
  {
  }

  /** The lone object of the example gets every default but its title. */
  lemma TalkRecord()
    ensures NormalizeEvent(TalkObject) == Success(TalkEvent)
  {
    assert Field(TalkObject, "title") == Some(JString("Talk"));
    assert Field(TalkObject, "description") == None;
    assert Field(TalkObject, "location") == None;
    assert Field(TalkObject, "startDateTime") == None;
    assert Field(TalkObject, "endDateTime") == None;
    assert Field(TalkObject, "allDay") == None;
  }

  /** A reply whose cut-out text parses to an array with no `null` element
      gives the normalised elements. */
  lemma ParsedArray(content: string, parse: string -> Option<Json>, items: seq<Json>, events: seq<Event>)
    requires parse(ExtractJsonText(content)) == Some(JArray(items))
    requires NormalizeAll(items) == Success(events)
    ensures ParseClaudeResponse(content, parse) == Success(events)
  {
  }

  lemma TalkNormalized()
    ensures NormalizeAll([TalkObject]) == Success([TalkEvent])
  {
    TalkRecord();
    var r := NormalizeAll([TalkObject]);
    assert r.Success?;
    assert r.value[0] == TalkEvent;
    assert r.value == [TalkEvent];
  }

  /** The reply "Here are the events:", then a `json` fence holding one
      object with only a title, gives one record with every other field
      defaulted. */
  lemma TalkScenario(parse: string -> Option<Json>)
    requires parse(TalkArray) == Some(JArray([TalkObject]))
    ensures ParseClaudeResponse(TalkReply, parse) == Success([TalkEvent])
  {
    TalkText();
    TalkNormalized();
    ParsedArray(TalkReply, parse, [TalkObject], [TalkEvent]);
  }
}
