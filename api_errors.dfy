/** The error bodies the API returns: a status code with a message, and two
    variants that add exception details or validation errors. */
module Errors {
  import opened Entities

  /** The status codes that have a default message. */
  predicate HasDefaultMessage(statusCode: int) {
    statusCode == 400 || statusCode == 401 || statusCode == 404 || statusCode == 500
  }

  /** `GetDefaultMessage`: the message for a status code when none is given
      (the spelling "Unauthourized" is the API's own). */
  function GetDefaultMessage(statusCode: int): (r: Option<string>)
    ensures r.Some? <==> HasDefaultMessage(statusCode)
    ensures statusCode == 400 ==> r == Some("Bad Request")
    ensures statusCode == 401 ==> r == Some("Unauthourized")
    ensures statusCode == 404 ==> r == Some("Not Found")
    ensures statusCode == 500 ==> r == Some("Internal Server Error")
  {
    if statusCode == 400 then Some("Bad Request")
    else if statusCode == 401 then Some("Unauthourized")
    else if statusCode == 404 then Some("Not Found")
    else if statusCode == 500 then Some("Internal Server Error")
    else None
  }

  /** `message ?? GetDefaultMessage(statusCode)`: a given message is kept
      verbatim whatever the code, and otherwise the default (possibly null)
      is used. */
  function ResponseMessage(statusCode: int, message: Option<string>): (r: Option<string>)
    ensures message.Some? ==> r == message
    ensures message.None? ==> r == GetDefaultMessage(statusCode)
    ensures r.Some? <==> message.Some? || HasDefaultMessage(statusCode)
  {
    if message.Some? then message else GetDefaultMessage(statusCode)
  }

  class ApiResponse {
    var statusCode: int
    var message: Option<string>

    constructor (statusCode: int, message: Option<string>)
      ensures this.statusCode == statusCode
      ensures this.message == ResponseMessage(statusCode, message)
      ensures this.message.Some? <==> message.Some? || HasDefaultMessage(statusCode)
    {
      this.statusCode := statusCode;
      this.message := if message.Some? then message else GetDefaultMessage(statusCode);
    }
  }

  /** The body for an unhandled exception: the base fields plus `Details`. */
  datatype ApiExceptionResponse = ApiExceptionResponse(statusCode: int, message: Option<string>, details: Option<string>)

  /** The `ApiExceptionResponse` constructor; omitted arguments are `None`. */
  function NewApiExceptionResponse(statusCode: int, message: Option<string>, details: Option<string>): (r: ApiExceptionResponse)
    ensures r.statusCode == statusCode
    ensures r.message == ResponseMessage(statusCode, message)
    ensures r.details == details
  {
    ApiExceptionResponse(statusCode, ResponseMessage(statusCode, message), details)
  }

  /** The details have no influence on the status code or the message, and
      a 500 without a message reads "Internal Server Error". */
  lemma ExceptionResponseDetailsIndependent(statusCode: int, message: Option<string>, d1: Option<string>, d2: Option<string>)
    ensures NewApiExceptionResponse(statusCode, message, d1).statusCode == NewApiExceptionResponse(statusCode, message, d2).statusCode
    ensures NewApiExceptionResponse(statusCode, message, d1).message == NewApiExceptionResponse(statusCode, message, d2).message
    ensures NewApiExceptionResponse(500, None, d1).message == Some("Internal Server Error")
  {
  }

  /** The body for a request that fails model validation. */
  datatype ApiValidationErrorResponse = ApiValidationErrorResponse(statusCode: int, message: Option<string>, errors: seq<string>)

  /** The `ApiValidationErrorResponse` constructor: status 400 with the
      default message, and no errors yet. */
  function NewApiValidationErrorResponse(): (r: ApiValidationErrorResponse)
    ensures r.statusCode == 400 && r.message == Some("Bad Request") && r.errors == []
  {
    ApiValidationErrorResponse(400, ResponseMessage(400, None), [])
  }

  /** Assigning `Errors` leaves the status code and the message as they were. */
  lemma AssigningErrorsKeepsStatus(r: ApiValidationErrorResponse, errors: seq<string>)
    ensures r.(errors := errors).statusCode == r.statusCode
    ensures r.(errors := errors).message == r.message
    ensures r.(errors := errors).errors == errors
  {
  }
}
