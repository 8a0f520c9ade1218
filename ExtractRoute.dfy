/**
 * The symptom-extraction endpoint (src/app/api/extract-symptoms/route.ts): a body-parse,
 * input-length, API-key ladder in front of an external extraction call whose outcome is a
 * parameter.
 */
module ExtractRoute {
  import opened Wrappers
  import opened JsString
  import opened Medical

  const MinTextLength: nat := 10

  /**
   * The body as the route sees it: unparsable (the parse throws), or the `text` field,
   * which may be missing or falsy, a string, or a truthy non-string on which `.trim()` throws.
   */
  datatype ExtractBody = Unparsable | NoText | TextValue(text: string) | NotAString

  /** What `extractSymptomsFromText` does when called: symptoms, or a throw. */
  datatype ExtractionOutcome = Extracted(symptoms: seq<Symptom>) | ExtractionThrew

  datatype ExtractErrorCode = InvalidInput | ConfigurationError | ExtractionFailed

  datatype ExtractResponse =
    | Success(symptoms: seq<Symptom>, processingTimeMs: int)
    | Failure(code: ExtractErrorCode, message: string, processingTimeMs: int)

  /** The wire name of each error code. */
  function CodeName(c: ExtractErrorCode): (name: string)
    ensures name != ""
  {
    match c
    case InvalidInput => "INVALID_INPUT"
    case ConfigurationError => "CONFIGURATION_ERROR"
    case ExtractionFailed => "EXTRACTION_FAILED"
  }

  /** No two error codes share a wire name. */
  lemma CodeNamesDistinct(a: ExtractErrorCode, b: ExtractErrorCode)
    ensures CodeName(a) == CodeName(b) ==> a == b
  {
  }

  /** The HTTP status: 200 exactly on success, 400 exactly for bad input, otherwise a server error. */
  function Status(r: ExtractResponse): (s: int)
    ensures s == 200 <==> r.Success?
    ensures s == 400 <==> r.Failure? && r.code == InvalidInput
    ensures s == 500 <==> r.Failure? && r.code != InvalidInput
  {
    match r
    case Success(_, _) => 200
    case Failure(code, _, _) => if code == InvalidInput then 400 else 500
  }

  /** The text the route forwards to the extraction, when it gets that far. */
  predicate TextAccepted(body: ExtractBody) {
    body.TextValue? && body.text != "" && Utf16Length(Trim(body.text)) >= MinTextLength
  }

  /** The response, and whether the extraction was called (with which text). */
  datatype Handled = Handled(response: ExtractResponse, extractedFrom: Option<string>)

  /** `POST`: parse, `!text || text.trim().length < 10`, key check, extraction; any throw is EXTRACTION_FAILED. */
  function Post(body: ExtractBody, apiKey: Option<string>, outcome: ExtractionOutcome, elapsed: int): (h: Handled)
    ensures h.response.processingTimeMs == elapsed
    ensures h.response.Failure? && h.response.code == InvalidInput <==>
              body.NoText? || (body.TextValue? && !TextAccepted(body))
    ensures h.response.Failure? && h.response.code == ConfigurationError <==>
              TextAccepted(body) && !(apiKey.Some? && apiKey.value != "")
    ensures h.extractedFrom.Some? <==> TextAccepted(body) && apiKey.Some? && apiKey.value != ""
    ensures h.extractedFrom.Some? ==> h.extractedFrom.value == body.text
    ensures h.response.Success? <==> h.extractedFrom.Some? && outcome.Extracted?
    ensures h.response.Success? ==> h.response.symptoms == outcome.symptoms
    ensures h.response.Failure? && h.response.code == ExtractionFailed <==>
              body.Unparsable? || body.NotAString? || (h.extractedFrom.Some? && outcome.ExtractionThrew?)
  {
    match body
    case Unparsable =>
      Handled(Failure(ExtractionFailed, "Failed to extract symptoms. Please try again.", elapsed), None)
    case NotAString =>
      Handled(Failure(ExtractionFailed, "Failed to extract symptoms. Please try again.", elapsed), None)
    case NoText =>
      Handled(Failure(InvalidInput, "Please provide a more detailed description of symptoms.", elapsed), None)
    case TextValue(text) =>
      if text == "" || Utf16Length(Trim(text)) < MinTextLength then
        Handled(Failure(InvalidInput, "Please provide a more detailed description of symptoms.", elapsed), None)
      else if !(apiKey.Some? && apiKey.value != "") then
        Handled(Failure(ConfigurationError, "AI service is not properly configured.", elapsed), None)
      else
        match outcome
        case Extracted(symptoms) => Handled(Success(symptoms, elapsed), Some(text))
        case ExtractionThrew =>
          Handled(Failure(ExtractionFailed, "Failed to extract symptoms. Please try again.", elapsed), Some(text))
  }

  /** Text made only of white space is refused, however long it is. */
  lemma WhiteSpaceOnlyRejected(text: string, apiKey: Option<string>, outcome: ExtractionOutcome, elapsed: int)
    requires AllWhiteSpace(text)
    ensures Post(TextValue(text), apiKey, outcome, elapsed).response == Failure(InvalidInput, "Please provide a more detailed description of symptoms.", elapsed)
  {
  }

  /** The length bound is on the trimmed text: nine characters are refused, ten accepted. */
  lemma LengthBoundary(nine: string, ten: string, outcome: ExtractionOutcome, elapsed: int)
    requires Utf16Length(Trim(nine)) == 9 && Utf16Length(Trim(ten)) == 10
    ensures Post(TextValue(nine), Some("key"), outcome, elapsed).response.Failure?
    ensures Post(TextValue(nine), Some("key"), outcome, elapsed).response.code == InvalidInput
    ensures Post(TextValue(ten), Some("key"), outcome, elapsed).extractedFrom == Some(ten)
  {
    assert !TextAccepted(TextValue(nine));
    assert ten != "" && TextAccepted(TextValue(ten));
    assert "key" != "";
  }

  /** The length is JavaScript's: five characters outside the Basic Multilingual Plane are ten code units. */
  lemma AstralTextAccepted()
    ensures TextAccepted(TextValue("\U{1F600}\U{1F600}\U{1F600}\U{1F600}\U{1F600}"))
  {
    var t := "\U{1F600}\U{1F600}\U{1F600}\U{1F600}\U{1F600}";
    assert TrimStart(t) == t;
    assert TrimEnd(t) == t;
    assert t[1..][1..][1..][1..][1..] == [];
    assert Utf16Length(t) == 10;
  }

  /** Surrounding white space never makes a short description acceptable. */
  lemma {:induction false} PaddingDoesNotHelp(text: string, pad: string)
    requires AllWhiteSpace(pad)
    ensures TextAccepted(TextValue(pad + text)) <==> TextAccepted(TextValue(text))
  {
    TrimStartPad(pad, text);
  }

  lemma {:induction false} TrimStartPad(pad: string, text: string)
    requires AllWhiteSpace(pad)
    ensures TrimStart(pad + text) == TrimStart(text)
  {
    if pad != [] {
      assert (pad + text)[1..] == pad[1..] + text;
      TrimStartPad(pad[1..], text);
    } else {
      assert pad + text == text;
    }
  }
}
