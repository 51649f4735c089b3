/** The analyzer form of components/email-analyzer.tsx: the validation rules
    derived from the fields, the render conditions, and the component state
    that `handleSubmit` changes. */
module Analyzer {
  import opened Js
  import opened Sanitizer
  import opened Words

  const MinTextLength := 10
  const MaxWords := 2000
  const MaxSubjectLength := 100

  const TooShort := "Email text must be at least 10 characters long"
  const TooManyWords := "Email text must not exceed 2000 words"
  const SubjectTooLong := "Email subject must not exceed 100 characters"
  const GenericError := "An error occurred while analyzing the email"

  /** `isValidSubject`: empty, or of length 1 to 100 (UTF-16 code units). */
  predicate IsValidSubject(subject: string) {
    subject == "" || (Utf16Length(subject) > 0 && Utf16Length(subject) <= MaxSubjectLength)
  }

  /** `isValidInput`, with `wordCount = countWords(emailText)`. */
  predicate IsValidInput(text: string, subject: string) {
    Utf16Length(text) >= MinTextLength && CountWords(text) <= MaxWords && IsValidSubject(subject)
  }

  /** The subject rule is just a bound on its length. */
  lemma IsValidSubjectIff(subject: string)
    ensures IsValidSubject(subject) <==> Utf16Length(subject) <= MaxSubjectLength
  {
  }

  /** The input is valid exactly when the text has at least 10 code units and
      at most 2000 maximal non-whitespace runs and the subject at most 100 code units. */
  lemma IsValidInputIff(text: string, subject: string)
    ensures IsValidInput(text, subject) <==>
      Utf16Length(text) >= MinTextLength && Runs(text) <= MaxWords
      && Utf16Length(subject) <= MaxSubjectLength
  {
    CountWordsIsRuns(text);
  }

  /** The one message a failed validation shows, by the fixed precedence:
      text too short, else too many words, else subject too long. */
  function ValidationMessage(text: string, subject: string): (m: string)
    requires !IsValidInput(text, subject)
    ensures m == TooShort <==> Utf16Length(text) < MinTextLength
    ensures m == TooManyWords <==> Utf16Length(text) >= MinTextLength && CountWords(text) > MaxWords
    ensures m == SubjectTooLong <==>
      Utf16Length(text) >= MinTextLength && CountWords(text) <= MaxWords
      && Utf16Length(subject) > MaxSubjectLength
  {
    if Utf16Length(text) < MinTextLength then TooShort
    else if CountWords(text) > MaxWords then TooManyWords
    else SubjectTooLong
  }

  /** The JSON body the form posts: the sanitized text, and the sanitized
      subject or `null` for an empty subject. */
  function RequestBody(text: string, subject: string): Json {
    JObj(map[
      "text" := JStr(SanitizeInput(text)),
      "subject" := if subject != "" then JStr(SanitizeInput(subject)) else JNull])
  }

  /** The error a completed request leaves in the form, or `None` when the
      completion sets none (the response was ok and its body parsed). */
  function OutcomeError(outcome: FetchOutcome): (e: Option<Json>)
    ensures e.Some? ==> Truthy(e.value)
    ensures e.None? <==> outcome.Responded? && IsOk(outcome.status) && outcome.body.Some?
    ensures e.Some? && e.value != JStr(GenericError) ==>
      outcome.Responded? && !IsOk(outcome.status) && outcome.body.Some?
      && Property(outcome.body.value, "error") == Value(e.value)
    ensures outcome.Responded? && !IsOk(outcome.status) && outcome.body.Some? ==>
      var field := Property(outcome.body.value, "error");
      field.Value? && Truthy(field.v) ==> e == Some(field.v)
  {
    match outcome
    case Threw => Some(JStr(GenericError))
    case Responded(status, body) =>
      if !IsOk(status) then
        if body.None? then Some(JStr(GenericError))
        else
          var field := Property(body.value, "error");
          if field.TypeError? then Some(JStr(GenericError))
          else Some(OrElse(field, JStr(GenericError)))
      else if body.None? then Some(JStr(GenericError))
      else None
  }

  /** The result a completed request stores, or `None` when it stores none. */
  function OutcomeResult(outcome: FetchOutcome): (r: Option<Json>)
    ensures r.Some? <==> OutcomeError(outcome).None?
    ensures r.Some? ==> outcome == Responded(outcome.status, Some(r.value))
  {
    if outcome.Responded? && IsOk(outcome.status) && outcome.body.Some? then Some(outcome.body.value)
    else None
  }

  /** The submit button is disabled (email-analyzer.tsx:121). */
  predicate SubmitDisabled(text: string, subject: string, isAnalyzing: bool) {
    !IsValidInput(text, subject) || isAnalyzing
  }

  /** The error alert is rendered (email-analyzer.tsx:134). */
  predicate ErrorShown(error: Json) {
    Truthy(error)
  }

  /** The result panel is rendered (email-analyzer.tsx:142). */
  predicate ResultShown(result: Json, isAnalyzing: bool, error: Json) {
    Truthy(result) && !isAnalyzing && !Truthy(error)
  }

  /** A result is never shown together with an error. */
  lemma NeverResultAndError(result: Json, isAnalyzing: bool, error: Json)
    ensures !(ResultShown(result, isAnalyzing, error) && ErrorShown(error))
  {
  }

  /** The button is disabled exactly while a request is in flight or when one
      of the three rules fails. */
  lemma SubmitDisabledIff(text: string, subject: string, isAnalyzing: bool)
    ensures SubmitDisabled(text, subject, isAnalyzing) <==>
      isAnalyzing || Utf16Length(text) < MinTextLength || Runs(text) > MaxWords
      || Utf16Length(subject) > MaxSubjectLength
  {
    IsValidInputIff(text, subject);
  }

  /** The state of one form instance. */
  class EmailAnalyzer {
    var emailSubject: string
    var emailText: string
    var isAnalyzing: bool
    var result: Json
    var error: Json

    /** The error is `null` or something the alert can show. */
    ghost predicate Valid()
      reads this
    {
      error == JNull || Truthy(error)
    }

    /** Under `Valid()`, the alert's condition `error &&` (email-analyzer.tsx:134)
        and the panel's `!error` (email-analyzer.tsx:142) both mean `error != null`. */
    lemma ErrorShownIffSet()
      requires Valid()
      ensures ErrorShown(error) <==> error != JNull
      ensures ResultShown(result, isAnalyzing, error) <==> Truthy(result) && !isAnalyzing && error == JNull
    {
    }

    /** The initial state: empty fields, nothing in flight, no result, no error. */
    constructor ()
      ensures Valid()
      ensures emailSubject == "" && emailText == "" && !isAnalyzing
      ensures result == JNull && error == JNull
    {
      emailSubject := "";
      emailText := "";
      isAnalyzing := false;
      result := JNull;
      error := JNull;
    }

    /** The subject field's `onChange`. */
    method UpdateSubject(subject: string)
      requires Valid()
      modifies this
      ensures Valid()
      ensures emailSubject == subject && emailText == old(emailText)
      ensures isAnalyzing == old(isAnalyzing) && result == old(result) && error == old(error)
    {
      emailSubject := subject;
    }

    /** The text field's `onChange`. */
    method UpdateText(text: string)
      requires Valid()
      modifies this
      ensures Valid()
      ensures emailText == text && emailSubject == old(emailSubject)
      ensures isAnalyzing == old(isAnalyzing) && result == old(result) && error == old(error)
    {
      emailText := text;
    }

    /** `handleSubmit` up to the awaited `fetch`: clear the error, validate,
        then mark the request in flight and build its body. `None` means no
        request is made. */
    method BeginSubmit() returns (request: Option<Json>)
      requires Valid()
      modifies this
      ensures Valid()
      ensures emailSubject == old(emailSubject) && emailText == old(emailText)
      ensures result == old(result)
      ensures request.None? <==> !IsValidInput(emailText, emailSubject)
      ensures request.None? ==>
        isAnalyzing == old(isAnalyzing) && error == JStr(ValidationMessage(emailText, emailSubject))
      ensures request.Some? ==>
        request.value == RequestBody(emailText, emailSubject) && isAnalyzing && error == JNull
      ensures request.Some? ==>
        SubmitDisabled(emailText, emailSubject, isAnalyzing) && !ResultShown(result, isAnalyzing, error)
    {
      error := JNull;
      if !IsValidInput(emailText, emailSubject) {
        if Utf16Length(emailText) < MinTextLength {
          error := JStr(TooShort);
        } else if CountWords(emailText) > MaxWords {
          error := JStr(TooManyWords);
        } else if Utf16Length(emailSubject) > MaxSubjectLength {
          error := JStr(SubjectTooLong);
        }
        return None;
      }
      isAnalyzing := true;
      var sanitizedText := SanitizeInput(emailText);
      var sanitizedSubject := if emailSubject != "" then JStr(SanitizeInput(emailSubject)) else JNull;
      request := Some(JObj(map["text" := JStr(sanitizedText), "subject" := sanitizedSubject]));
    }

    /** `handleSubmit` after the awaited `fetch`: on a non-ok response the
        envelope's truthy `error` field or the generic message, on a failure
        the generic message, on an ok response the parsed body as the result;
        in every case the request is no longer in flight. */
    method FinishSubmit(outcome: FetchOutcome)
      requires Valid()
      modifies this
      ensures Valid()
      ensures emailSubject == old(emailSubject) && emailText == old(emailText)
      ensures !isAnalyzing
      ensures error == if OutcomeError(outcome).Some? then OutcomeError(outcome).value else old(error)
      ensures result == if OutcomeResult(outcome).Some? then OutcomeResult(outcome).value else old(result)
      ensures OutcomeError(outcome).Some? ==> ErrorShown(error) && !ResultShown(result, isAnalyzing, error)
    {
      match outcome {
        case Threw =>
          error := JStr(GenericError);
        case Responded(status, body) =>
          if !IsOk(status) {
            if body.None? {
              error := JStr(GenericError);
            } else {
              var errorData := body.value;
              var field := Property(errorData, "error");
              if field.TypeError? {
                error := JStr(GenericError);
              } else if field.Value? && Truthy(field.v) {
                error := field.v;
              } else {
                error := JStr(GenericError);
              }
            }
          } else if body.None? {
            error := JStr(GenericError);
          } else {
            result := body.value;
          }
      }
      isAnalyzing := false;
    }

    /** The whole of `handleSubmit`, given what the awaited `fetch` delivers. */
    method Submit(outcome: FetchOutcome) returns (request: Option<Json>)
      requires Valid()
      modifies this
      ensures Valid()
      ensures emailSubject == old(emailSubject) && emailText == old(emailText)
      ensures request.None? <==> !IsValidInput(emailText, emailSubject)
      ensures request.None? ==>
        isAnalyzing == old(isAnalyzing) && result == old(result)
        && error == JStr(ValidationMessage(emailText, emailSubject))
      ensures request.Some? ==> request.value == RequestBody(emailText, emailSubject) && !isAnalyzing
      ensures request.Some? ==>
        result == (if OutcomeResult(outcome).Some? then OutcomeResult(outcome).value else old(result))
      ensures request.Some? ==>
        error == (if OutcomeError(outcome).Some? then OutcomeError(outcome).value else JNull)
      ensures request.Some? ==>
        (ResultShown(result, isAnalyzing, error) <==> OutcomeResult(outcome).Some? && Truthy(result))
    {
      request := BeginSubmit();
      if request.Some? {
        FinishSubmit(outcome);
      }
    }
  }
}
