/**
 * `isValidAnthropicApiKey` and `validateEvent`.
 */
module Validators {
  import opened Wrappers
  import opened JsValues
  import opened Text
  import opened Records

  const KeyPrefix := "sk-ant-"
  const TitleRequired := "Event title is required"
  const StartRequired := "Start date/time is required for non-all-day events"

  /** The truthiness of `apiKey && apiKey.trim().startsWith('sk-ant-')`. */
  predicate IsValidAnthropicApiKey(apiKey: string) {
    apiKey != [] && StartsWith(Trim(apiKey), KeyPrefix)
  }

  /** `{ isValid, errors }` */
  datatype Validation = Validation(isValid: bool, errors: seq<string>)

  /** `validateEvent(event)`: collects the error messages in order. A truthy
      title that is not a string has no `trim`, so the call throws. */
  method ValidateEvent(event: Event) returns (r: Result<Validation, JsError>)
    ensures r.Failure? <==> Truthy(event.title) && !event.title.JString?
    ensures r.Success? ==>
      var titleMissing := !Truthy(event.title) || Trim(event.title.s) == [];
      var startMissing := !Truthy(event.startDateTime) && !Truthy(event.allDay);
      && r.value.errors == (if titleMissing then [TitleRequired] else []) + (if startMissing then [StartRequired] else [])
      && (r.value.isValid <==> r.value.errors == [])
  {
    var errors: seq<string> := [];
    if !Truthy(event.title) {
      errors := errors + [TitleRequired];
    } else if !event.title.JString? {
      return Failure(TypeError);
    } else if Trim(event.title.s) == [] {
      errors := errors + [TitleRequired];
    }
    if !Truthy(event.startDateTime) && !Truthy(event.allDay) {
      errors := errors + [StartRequired];
    }
    return Success(Validation(|errors| == 0, errors));
  }
}

module ValidatorsProperties {
  import opened Text
  import opened Validators

  /** White space around a key does not make it invalid. */
  lemma {:induction false} PaddedKeyAccepted(w1: string, key: string, w2: string)
    requires AllSpace(w1) && AllSpace(w2) && Trimmed(key) && StartsWith(key, KeyPrefix)
    ensures IsValidAnthropicApiKey(w1 + key + w2)
  {
    TrimPadded(w1, key, w2);
  }

  /** A key is valid exactly when trimming it first leaves it valid. */
  lemma {:induction false} ValidityIgnoresTrim(key: string)
    ensures IsValidAnthropicApiKey(Trim(key)) <==> IsValidAnthropicApiKey(key)
  {
    TrimIdempotent(key);
    if IsValidAnthropicApiKey(key) {
      assert Trim(key) != [];
    }
  }

  /** A key already trimmed (as the settings panel passes it) is valid
      exactly when it starts with the prefix, and a valid key is at least
      as long as the prefix. */
  lemma {:induction false} KeyValidity(key: string)
    ensures Trimmed(key) ==> (IsValidAnthropicApiKey(key) <==> StartsWith(key, KeyPrefix))
    ensures IsValidAnthropicApiKey(key) ==> |key| >= |KeyPrefix|
  {
    if Trimmed(key) {
      TrimOfTrimmed(key);
    }
  }

  /** A blank key, or one with another prefix, is refused. */
  lemma BlankKeyRefused(key: string)
    requires AllSpace(key)
    ensures !IsValidAnthropicApiKey(key)
  {
  }
}
