/**
  * `HttpExceptionFilter` (src/filters/http-exception.filter.ts): turns anything
  * thrown by a handler into an HTTP status and a list of error records.
  */
module Filters {
  import opened Common

  /** `exception.response` as far as the filter looks at it: whether its `message` is an array. */
  datatype ResponseBody =
    | MessageList(messages: seq<string>, statusCode: Option<int>)
    | NoMessageList

  /** What a handler can throw. */
  datatype Exception =
    | HttpError(status: int, message: string, response: ResponseBody, code: Option<string>, stack: Option<string>)
    | ThrownString(text: string)
    | OtherObject(messageField: Option<string>, response: ResponseBody, code: Option<string>, stack: Option<string>)
    | Nullish  // `null` or `undefined`

  /** One entry of the `errors` array of the response body. */
  datatype ErrorRecord = ErrorRecord(
    status: Option<int>,
    code: Option<string>,
    title: string,
    detail: string,
    stack: Option<string>,
    sourcePoint: Option<string>)

  const DefaultStatus: int := 422
  const UnknownError: string := "Unknown error"
  const Title: string := "error"

  /**
    * The `detail` of the base record (lines 37-43): an HttpException's message,
    * a thrown string itself, otherwise the object's message unless it is
    * missing or empty, in which case `Unknown error`.
    */
  function Detail(ex: Exception): (r: string)
    ensures ex.HttpError? ==> r == ex.message
    ensures ex.ThrownString? ==> r == ex.text
    ensures ex.Nullish? ==> r == UnknownError
    ensures ex.OtherObject? ==> r != "" && (r == UnknownError || ex.messageField == Some(r))
    ensures ex.OtherObject? && ex.messageField.Some? && ex.messageField.value != "" ==> r == ex.messageField.value
  {
    match ex
    case HttpError(_, message, _, _, _) => message
    case ThrownString(text) => text
    case OtherObject(message, _, _, _) =>
      if message.Some? && message.value != "" then message.value else UnknownError
    case Nullish => UnknownError
  }

  /** `exception.code`, undefined for strings. */
  function CodeOf(ex: Exception): Option<string> {
    match ex
    case HttpError(_, _, _, code, _) => code
    case OtherObject(_, _, code, _) => code
    case _ => None
  }

  /** `exception.stack`, undefined for strings. */
  function StackOf(ex: Exception): Option<string> {
    match ex
    case HttpError(_, _, _, _, stack) => stack
    case OtherObject(_, _, _, stack) => stack
    case _ => None
  }

  /** `exception.response`, absent for strings. */
  function ResponseOf(ex: Exception): ResponseBody {
    match ex
    case HttpError(_, _, response, _, _) => response
    case OtherObject(_, response, _, _) => response
    case _ => NoMessageList
  }

  /**
    * The record built before looking at `exception.response` (lines 45-54):
    * the given status, the exception's code, title `error`, the detail, no
    * source point, and the exception's stack only in development.
    */
  function BaseRecord(ex: Exception, status: int, isDev: bool): (r: ErrorRecord)
    ensures r.status == Some(status) && r.code == CodeOf(ex) && r.title == Title && r.detail == Detail(ex)
    ensures r.sourcePoint.None?
    ensures r.stack == if isDev then StackOf(ex) else None
  {
    ErrorRecord(Some(status), CodeOf(ex), Title, Detail(ex), if isDev then StackOf(ex) else None, None)
  }

  /** The record for one message of a message array: the base record with that message and the response's status. */
  function MessageRecord(base: ErrorRecord, message: string, statusCode: Option<int>): ErrorRecord {
    base.(detail := message, status := statusCode, sourcePoint := Some(message))
  }

  /**
    * `buildErrors` as written: `None` is the TypeError it throws at
    * `exception.code` when the exception is `null` or `undefined`.
    */
  function BuildErrorsAsWritten(ex: Exception, status: int, isDev: bool): (r: Option<seq<ErrorRecord>>)
    ensures r.None? <==> ex.Nullish?
  {
    if ex.Nullish? then None
    else
      var base := BaseRecord(ex, status, isDev);
      match ResponseOf(ex)
      case MessageList(messages, statusCode) =>
        Some(seq(|messages|, i requires 0 <= i < |messages| => MessageRecord(base, messages[i], statusCode)))
      case NoMessageList => Some([base])
  }

  /** `throw null` makes the filter itself throw instead of answering. */
  lemma NullExceptionCrashesFilter(isDev: bool)
    ensures BuildErrorsAsWritten(Nullish, DefaultStatus, isDev) == None
  {
  }

  class HttpExceptionFilter {
    const isDev: bool

    /** Development mode is on exactly when the configured `env` setting is `development` (http-exception.filter.ts, line 30). */
    constructor (env: string)
      ensures isDev == (env == "development")
    {
      isDev := env == "development";
    }

    /**
      * `buildErrors`, corrected so that a `null` or `undefined` exception gets
      * the same single "Unknown error" record as any other object without a
      * message; on every other exception it is the code as written.
      */
    method BuildErrors(ex: Exception, status: int) returns (errors: seq<ErrorRecord>)
      ensures !ex.Nullish? ==> BuildErrorsAsWritten(ex, status, isDev) == Some(errors)
      ensures ResponseOf(ex).MessageList? ==>
        var messages := ResponseOf(ex).messages;
        && |errors| == |messages|
        && forall i :: 0 <= i < |errors| ==>
             errors[i].detail == messages[i] && errors[i].sourcePoint == Some(messages[i])
             && errors[i].status == ResponseOf(ex).statusCode
      ensures ResponseOf(ex).NoMessageList? ==>
        errors == [ErrorRecord(Some(status), CodeOf(ex), Title, Detail(ex), if isDev then StackOf(ex) else None, None)]
      ensures forall e :: e in errors ==> e.title == Title && e.code == CodeOf(ex)
      ensures forall e :: e in errors ==> e.stack == if isDev then StackOf(ex) else None
    {
      var error := BaseRecord(ex, status, isDev);
      match ResponseOf(ex) {
        case MessageList(messages, statusCode) =>
          errors := [];
          for i := 0 to |messages|
            invariant |errors| == i
            invariant forall j :: 0 <= j < i ==> errors[j] == MessageRecord(error, messages[j], statusCode)
          {
            errors := errors + [MessageRecord(error, messages[i], statusCode)];
          }
          assert errors == seq(|messages|, j requires 0 <= j < |messages| => MessageRecord(error, messages[j], statusCode));
        case NoMessageList =>
          errors := [error];
      }
    }

    /** `catch`: the exception's own status for an `HttpException`, 422 for anything else, and its error records. */
    method Catch(ex: Exception) returns (status: int, errors: seq<ErrorRecord>)
      ensures status == if ex.HttpError? then ex.status else DefaultStatus
      ensures ResponseOf(ex).NoMessageList? ==> |errors| == 1 && errors[0].status == Some(status)
      ensures ex.Nullish? ==> errors == [ErrorRecord(Some(DefaultStatus), None, Title, UnknownError, None, None)]
      ensures !ex.Nullish? ==> BuildErrorsAsWritten(ex, status, isDev) == Some(errors)
    {
      status := DefaultStatus;
      if ex.HttpError? {
        status := ex.status;
      }
      errors := BuildErrors(ex, status);
    }
  }
}
