/**
 * The application's error taxonomy (`AppException` and its three subclasses)
 * and the two FastAPI exception handlers that turn errors into the JSON
 * envelope `{code, message, result}`.
 *
 * Messages are the untranslated message ids; the gettext lookup `_()` that
 * the constructors apply to their defaults is not part of this model.
 */
module Exceptions {
  import opened Wrappers
  import opened Strings

  const HttpBadRequest: int := 400
  const HttpUnauthorized: int := 401
  const HttpNotFound: int := 404
  const HttpConflict: int := 409
  const HttpUnprocessable: int := 422

  const DefaultAuthenticationMessage: string := "Authentication failed."
  const DefaultNotFoundMessage: string := "Resource not found."
  const DefaultConflictMessage: string := "Resource already exists."
  const ValidationErrorMessage: string := "VALIDATION_ERROR"

  /** An application error: its message and the HTTP status it maps to. */
  datatype AppException = AppException(message: string, code: int)

  /** `AppException(message, code=400)`: the code defaults to 400 when not given. */
  function NewAppException(message: string, code: Option<int>): (e: AppException)
    ensures e.message == message
    ensures code.None? ==> e.code == HttpBadRequest
    ensures code.Some? ==> e.code == code.value
  {
    AppException(message, code.GetOr(HttpBadRequest))
  }

  /** Python's `message or default`: a missing or empty message is falsy. */
  function MessageOr(message: Option<string>, default: string): (m: string)
    ensures message.Some? && message.value != "" ==> m == message.value
    ensures message.None? || message.value == "" ==> m == default
  {
    if message.Some? && message.value != "" then message.value else default
  }

  function AuthenticationError(message: Option<string>): (e: AppException)
    ensures e.code == HttpUnauthorized
    ensures e.message == MessageOr(message, DefaultAuthenticationMessage)
  {
    NewAppException(MessageOr(message, DefaultAuthenticationMessage), Some(HttpUnauthorized))
  }

  function NotFoundError(message: Option<string>): (e: AppException)
    ensures e.code == HttpNotFound
    ensures e.message == MessageOr(message, DefaultNotFoundMessage)
  {
    NewAppException(MessageOr(message, DefaultNotFoundMessage), Some(HttpNotFound))
  }

  function ConflictError(message: Option<string>): (e: AppException)
    ensures e.code == HttpConflict
    ensures e.message == MessageOr(message, DefaultConflictMessage)
  {
    NewAppException(MessageOr(message, DefaultConflictMessage), Some(HttpConflict))
  }

  /** A subclass instance never carries an empty message and keeps a given one verbatim. */
  lemma SubclassMessages(message: Option<string>)
    ensures AuthenticationError(message).message != ""
    ensures NotFoundError(message).message != ""
    ensures ConflictError(message).message != ""
    ensures message.Some? && message.value != "" ==>
      AuthenticationError(message).message == message.value
      && NotFoundError(message).message == message.value
      && ConflictError(message).message == message.value
  {
  }

  /** The three subclasses are told apart by their codes alone. */
  lemma SubclassCodesDistinct(a: Option<string>, b: Option<string>, c: Option<string>)
    ensures AuthenticationError(a).code != NotFoundError(b).code
    ensures NotFoundError(b).code != ConflictError(c).code
    ensures AuthenticationError(a).code != ConflictError(c).code
    ensures NewAppException("", None).code !in {AuthenticationError(a).code, NotFoundError(b).code, ConflictError(c).code}
  {
  }

  // ---------------------------------------------------------------------------
  // Response envelopes.

  datatype ValidationErrorDetail = ValidationErrorDetail(field: string, message: string)

  /** The JSON body `{code, message, result}`; `result` is null for application errors. */
  datatype Body = Body(code: int, message: string, result: Option<seq<ValidationErrorDetail>>)

  datatype JsonResponse = JsonResponse(statusCode: int, content: Body)

  /** The handler for `AppException`: the status and the body code are both the exception's code. */
  function AppExceptionResponse(e: AppException): (r: JsonResponse)
    ensures r.statusCode == e.code && r.content.code == e.code
    ensures r.content.message == e.message && r.content.result.None?
  {
    JsonResponse(e.code, Body(e.code, e.message, None))
  }

  /** One element of a pydantic error location: a field name or a list index. */
  datatype LocPart = Name(name: string) | Index(index: nat)

  datatype RequestError = RequestError(loc: seq<LocPart>, msg: string)

  function DigitChar(d: nat): (c: char)
    requires d < 10
    ensures '0' <= c <= '9'
  {
    ('0' as int + d) as char
  }

  /** `str(n)` for a non-negative integer: its decimal digits, without leading zeros. */
  function NatToString(n: nat): (s: string)
    ensures |s| >= 1
    ensures forall i :: 0 <= i < |s| ==> '0' <= s[i] <= '9'
    ensures |s| > 1 ==> s[0] != '0'
  {
    if n < 10 then [DigitChar(n)] else NatToString(n / 10) + [DigitChar(n % 10)]
  }

  function DigitValue(c: char): int { c as int - '0' as int }

  /** Reads a string of decimal digits back as a number. */
  function DecimalValue(s: string): int {
    if s == [] then 0 else 10 * DecimalValue(s[..|s| - 1]) + DigitValue(s[|s| - 1])
  }

  /** Reading back the digits written by `NatToString` gives the number. */
  lemma {:induction false} NatToStringRoundTrip(n: nat)
    ensures DecimalValue(NatToString(n)) == n
  {
    if n >= 10 {
      NatToStringRoundTrip(n / 10);
      var s := NatToString(n);
      assert s[..|s| - 1] == NatToString(n / 10);
      assert DigitValue(s[|s| - 1]) == n % 10;
      assert n == 10 * (n / 10) + n % 10;
    }
  }

  function LocString(p: LocPart): string {
    match p
    case Name(s) => s
    case Index(i) => NatToString(i)
  }

  function LocStrings(loc: seq<LocPart>): (r: seq<string>)
    ensures |r| == |loc|
    ensures forall i :: 0 <= i < |loc| ==> r[i] == LocString(loc[i])
  {
    if loc == [] then [] else LocStrings(loc[..|loc| - 1]) + [LocString(loc[|loc| - 1])]
  }

  function FieldOf(loc: seq<LocPart>): string {
    Join(LocStrings(loc), " -> ")
  }

  function Details(errors: seq<RequestError>): (r: seq<ValidationErrorDetail>)
    ensures |r| == |errors|
    ensures forall i :: 0 <= i < |errors| ==>
      r[i] == ValidationErrorDetail(FieldOf(errors[i].loc), errors[i].msg)
  {
    if errors == [] then []
    else
      var last := errors[|errors| - 1];
      Details(errors[..|errors| - 1]) + [ValidationErrorDetail(FieldOf(last.loc), last.msg)]
  }

  /** The handler for request validation errors: 422, "VALIDATION_ERROR", one detail per error in order. */
  function ValidationErrorResponse(errors: seq<RequestError>): (r: JsonResponse)
    ensures r.statusCode == HttpUnprocessable && r.content.code == HttpUnprocessable
    ensures r.content.message == ValidationErrorMessage
    ensures r.content.result.Some? && |r.content.result.value| == |errors|
    ensures forall i :: 0 <= i < |errors| ==>
      r.content.result.value[i].field == FieldOf(errors[i].loc)
      && r.content.result.value[i].message == errors[i].msg
  {
    JsonResponse(HttpUnprocessable, Body(HttpUnprocessable, ValidationErrorMessage, Some(Details(errors))))
  }

  /** A two-part location such as ("body", "day_of_month") reads "body -> day_of_month". */
  lemma FieldOfTwoParts(a: string, b: string)
    ensures FieldOf([Name(a), Name(b)]) == a + " -> " + b
  {
    assert LocStrings([Name(a), Name(b)]) == [a, b];
    assert [a, b][..1] == [a];
  }
}
