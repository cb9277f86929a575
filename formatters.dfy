/**
 * The formatting helpers behind an event card. Locale formatting of dates
 * and HTML escaping are done by the browser and passed in as `toLocale`
 * and `serialize`.
 */
module Formatters {
  import opened Wrappers
  import opened JsValues
  import opened Text

  const NotSpecified := "Not specified"

  /** `formatDateTime(isoString)`; `toLocale` is `new Date(v).toLocaleString(...)`. */
  function FormatDateTime(iso: Json, toLocale: Json -> string): (r: string)
    ensures !Truthy(iso) ==> r == NotSpecified
    ensures Truthy(iso) ==> r == toLocale(iso)
  {
    if !Truthy(iso) then NotSpecified else toLocale(iso)
  }

  /** `escapeHtml(text)`; `serialize` is the `innerHTML` of a `div` whose
      `textContent` is the value. */
  function EscapeHtml(text: Json, serialize: Json -> string): (r: string)
    ensures !Truthy(text) ==> r == ""
    ensures Truthy(text) ==> r == serialize(text)
  {
    if !Truthy(text) then "" else serialize(text)
  }

  /** `formatDateTimeForInput(isoString)`: the first 16 characters
      (`YYYY-MM-DDTHH:mm`); a truthy value that is not a string has no
      `substring`, so the call throws. */
  function FormatDateTimeForInput(iso: Json): (r: Result<string, JsError>)
    ensures !Truthy(iso) ==> r == Success("")
    ensures Truthy(iso) && !iso.JString? ==> r == Failure(TypeError)
    ensures Truthy(iso) && iso.JString? ==>
      && r.Success? && StartsWith(iso.s, r.value)
      && |r.value| == (if |iso.s| < 16 then |iso.s| else 16)
  {
    if !Truthy(iso) then Success("")
    else if !iso.JString? then Failure(TypeError)
    else Success(if |iso.s| <= 16 then iso.s else iso.s[..16])
  }
}

module FormattersProperties {
  import opened Wrappers
  import opened JsValues
  import opened Text
  import opened Formatters

  /** Feeding the input value back in changes nothing. */
  lemma FormatForInputIdempotent(iso: Json)
    requires FormatDateTimeForInput(iso).Success?
    ensures FormatDateTimeForInput(JString(FormatDateTimeForInput(iso).value)) == FormatDateTimeForInput(iso)
  {
    var r := FormatDateTimeForInput(iso).value;
    if r != [] {
      assert r[..|r|] == r;
    }
  }

  /** A full ISO 8601 date-time loses exactly its seconds. */
  lemma {:induction false} SecondsDropped(minute: string, seconds: string)
    requires |minute| == 16
    ensures FormatDateTimeForInput(JString(minute + seconds)) == Success(minute)
  {
    assert (minute + seconds)[..16] == minute;
  }
}
