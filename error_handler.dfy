/** The error middleware: every error thrown by a route is turned into an
    HTTP status and a message by a cascade of rules, later rules overriding
    earlier ones. */
module ErrorHandler {
  import opened Wrappers

  /** The thrown error as the middleware reads it. A missing `message`,
      `code` or `name` is `""`, a missing `status` is 0; `details` is the
      list a validation error carries. */
  datatype ErrorValue = ErrorValue(message: string, status: int, code: string, name: string,
                                   details: Option<seq<string>>, stack: Option<string>)

  /** The local `error` record the cascade reassigns. */
  datatype Outcome = Outcome(message: string, status: int, details: Option<seq<string>>)

  /** What is written back: the status and the JSON body's fields. */
  datatype Response = Response(status: int, error: string, stack: Option<string>, details: Option<seq<string>>)

  const DefaultMessage: string := "Internal Server Error"
  const DefaultStatus: int := 500
  const NotFoundCode: string := "PGRST116"
  const DuplicateCode: string := "PGRST301"

  /** The rules read as "the last rule that applies wins": the token rules,
      then the validation rule, then the database code, then the defaults. */
  function Classify(err: ErrorValue, development: bool): (r: Response)
    ensures r.stack == (if development then err.stack else None)
    ensures r.details.Some? ==> err.name == "ValidationError"
    ensures r.status in {err.status, 400, 401, 404, 409, 500}
    ensures err.name == "TokenExpiredError" ==> r.status == 401 && r.error == "Token expired"
    ensures err.name == "JsonWebTokenError" ==> r.status == 401 && r.error == "Invalid token"
    ensures err.name == "ValidationError" ==> r.status == 400 && r.error == "Validation failed" && r.details == err.details
    ensures err.name !in {"TokenExpiredError", "JsonWebTokenError", "ValidationError"} ==>
      && r.details.None?
      && (err.code == NotFoundCode ==> r.status == 404 && r.error == "Resource not found")
      && (err.code == DuplicateCode ==> r.status == 409 && r.error == "Duplicate resource")
      && (err.code !in {"", NotFoundCode, DuplicateCode} ==> r.status == 500 && r.error == "Database error")
      && (err.code == "" ==>
            (r.status == (if err.status != 0 then err.status else DefaultStatus)
             && r.error == (if err.message != "" then err.message else DefaultMessage)))
  {
    var stack := if development then err.stack else None;
    if err.name == "TokenExpiredError" then Response(401, "Token expired", stack, None)
    else if err.name == "JsonWebTokenError" then Response(401, "Invalid token", stack, None)
    else if err.name == "ValidationError" then Response(400, "Validation failed", stack, err.details)
    else if err.code == NotFoundCode then Response(404, "Resource not found", stack, None)
    else if err.code == DuplicateCode then Response(409, "Duplicate resource", stack, None)
    else if err.code != "" then Response(500, "Database error", stack, None)
    else Response(if err.status != 0 then err.status else DefaultStatus,
                  if err.message != "" then err.message else DefaultMessage, stack, None)
  }

  /** `errorHandler`, in source order: the default record, then each rule in
      turn overwriting it, then the response. It answers as `Classify`. */
  method HandleError(err: ErrorValue, development: bool) returns (response: Response)
    ensures response == Classify(err, development)
  {
    var error := Outcome(if err.message != "" then err.message else DefaultMessage,
                         if err.status != 0 then err.status else DefaultStatus, None);
    if err.code != "" {
      if err.code == NotFoundCode {
        error := Outcome("Resource not found", 404, None);
      } else if err.code == DuplicateCode {
        error := Outcome("Duplicate resource", 409, None);
      } else {
        error := Outcome("Database error", 500, None);
      }
    }
    if err.name == "ValidationError" {
      error := Outcome("Validation failed", 400, err.details);
    }
    if err.name == "JsonWebTokenError" {
      error := Outcome("Invalid token", 401, None);
    }
    if err.name == "TokenExpiredError" {
      error := Outcome("Token expired", 401, None);
    }
    response := Response(error.status, error.message,
                         if development then err.stack else None, error.details);
  }
}
