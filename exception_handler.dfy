/** The application's exception handler: how an exception thrown while
    serving a request becomes an HTTP response.

    `render` answers JSON requests itself for two exception kinds and hands
    everything else to the framework, which first tries the callbacks that
    `register` installed (in registration order, each one whose parameter
    type the exception is an instance of, stopping at the first that
    returns a response) and otherwise falls back to its own default
    rendering. The two callbacks turn database unique violations on the
    reservations table into 409 Conflict. */
module ExceptionHandler {
  import opened Wrappers
  import opened Text

  /** What `getCode()` returns: PHP allows an int or a string. */
  datatype Code = IntCode(n: int) | StrCode(s: string)

  datatype Exception =
    | HttpResponseException(carried: nat)             // carries a ready response (an opaque handle)
    | ValidationException(errors: map<string, seq<string>>)
    | HttpException(status: int)                      // any HttpExceptionInterface
    | QueryException(
        uniqueConstraint: bool,                       // is a UniqueConstraintViolationException
        code: Code,
        errorInfo0: Option<string>,                   // $e->errorInfo[0], if set
        message: string)
    | OtherException

  datatype Response =
    | Carried(handle: nat)                            // the exception's own response, unchanged
    | Json(status: int, message: string, source: Option<string>, errors: Option<map<string, seq<string>>>)
    | FrameworkDefault                                // the framework's own rendering

  const HTTP_UNPROCESSABLE_ENTITY: int := 422
  const HTTP_CONFLICT: int := 409
  const VALIDATION_MESSAGE: string := "入力エラーです。"
  const CONFLICT_MESSAGE: string := "その時間帯は埋まっています"
  const CONFLICT_SOURCE: string := "handler:unique_violation"

  const RESERVATIONS_MARKERS: seq<string> := ["reservations_", "reservations.", "reservations ", "on table \"reservations\""]
  const UNIQUE_MARKERS: seq<string> := ["UNIQUE constraint failed", "duplicate key"]

  /** `isReservationsUniqueViolation`: the message names the reservations table. */
  predicate IsReservationsUniqueViolation(message: string)
  {
    ContainsAny(message, RESERVATIONS_MARKERS)
  }

  /** The four markers, spelled out. */
  lemma ReservationsTestIff(message: string)
    ensures IsReservationsUniqueViolation(message) <==>
      Contains(message, "reservations_") || Contains(message, "reservations.") ||
      Contains(message, "reservations ") || Contains(message, "on table \"reservations\"")
  {
    assert RESERVATIONS_MARKERS[0] == "reservations_" && RESERVATIONS_MARKERS[1] == "reservations.";
    assert RESERVATIONS_MARKERS[2] == "reservations " && RESERVATIONS_MARKERS[3] == "on table \"reservations\"";
  }

  /** Extra text around a message never turns the test off. */
  lemma ReservationsTestMonotone(before: string, message: string, after: string)
    requires IsReservationsUniqueViolation(message)
    ensures IsReservationsUniqueViolation(before + message + after)
  {
    var k :| 0 <= k < |RESERVATIONS_MARKERS| && RESERVATIONS_MARKERS[k] != "" && Contains(message, RESERVATIONS_MARKERS[k]);
    ContainsInside(before, message, after, RESERVATIONS_MARKERS[k]);
  }

  /** PHP truthiness of `getCode()`: 0, "" and "0" are falsy. */
  predicate Truthy(c: Code)
  {
    match c
    case IntCode(n) => n != 0
    case StrCode(s) => s != "" && s != "0"
  }

  /** `$e->getCode() ?: ($e->errorInfo[0] ?? null)`. */
  function SqlState(code: Code, errorInfo0: Option<string>): (state: Option<Code>)
    ensures Truthy(code) ==> state == Some(code)
    ensures !Truthy(code) ==> (state.Some? <==> errorInfo0.Some?)
    ensures !Truthy(code) && errorInfo0.Some? ==> state == Some(StrCode(errorInfo0.value))
  {
    if Truthy(code) then Some(code)
    else if errorInfo0.Some? then Some(StrCode(errorInfo0.value))
    else None
  }

  /** `$sqlState === '23505'`: strict, so an integer 23505 does not match. */
  predicate IsUniqueState(state: Option<Code>)
  {
    state == Some(StrCode("23505"))
  }

  /** The unique-violation test of the QueryException callback. */
  predicate LooksUnique(code: Code, errorInfo0: Option<string>, message: string)
  {
    IsUniqueState(SqlState(code, errorInfo0)) || ContainsAny(message, UNIQUE_MARKERS)
  }

  /** The first callback, for UniqueConstraintViolationException. */
  function UniqueCallback(message: string, expectsJson: bool): (r: Option<Response>)
    ensures r.Some? <==> expectsJson && IsReservationsUniqueViolation(message)
    ensures r.Some? ==> r.value == Json(HTTP_CONFLICT, CONFLICT_MESSAGE, Some(CONFLICT_SOURCE), None)
  {
    if !expectsJson then None
    else if IsReservationsUniqueViolation(message) then Some(Json(HTTP_CONFLICT, CONFLICT_MESSAGE, Some(CONFLICT_SOURCE), None))
    else None
  }

  /** The second callback, for every QueryException. */
  function QueryCallback(code: Code, errorInfo0: Option<string>, message: string, expectsJson: bool): (r: Option<Response>)
    ensures r.Some? <==> expectsJson && LooksUnique(code, errorInfo0, message) && IsReservationsUniqueViolation(message)
    ensures r.Some? ==> r.value == Json(HTTP_CONFLICT, CONFLICT_MESSAGE, None, None)
  {
    if !expectsJson then None
    else
      var isUnique := IsUniqueState(SqlState(code, errorInfo0)) || ContainsAny(message, UNIQUE_MARKERS);
      if isUnique && IsReservationsUniqueViolation(message) then Some(Json(HTTP_CONFLICT, CONFLICT_MESSAGE, None, None))
      else None
  }

  /** The framework's callback dispatch: a UniqueConstraintViolationException
      is also a QueryException, so when the first callback declines the
      second one is asked. */
  function RenderViaCallbacks(e: Exception, expectsJson: bool): Option<Response>
  {
    match e
    case QueryException(unique, code, info, message) =>
      var first := if unique then UniqueCallback(message, expectsJson) else None;
      if first.Some? then first else QueryCallback(code, info, message, expectsJson)
    case _ => None
  }

  /** `parent::render`: the callbacks, then the framework's default. */
  function ParentRender(e: Exception, expectsJson: bool): Response
  {
    match RenderViaCallbacks(e, expectsJson)
    case Some(r) => r
    case None => FrameworkDefault
  }

  /** `Handler::render`. */
  function Render(e: Exception, expectsJson: bool): (r: Response)
    ensures expectsJson && e.HttpResponseException? ==> r == Carried(e.carried)
    ensures expectsJson && e.ValidationException? ==>
      r == Json(HTTP_UNPROCESSABLE_ENTITY, VALIDATION_MESSAGE, None, Some(e.errors))
    ensures !e.QueryException? && !(expectsJson && (e.HttpResponseException? || e.ValidationException?)) ==>
      r == FrameworkDefault
  {
    if expectsJson && e.HttpResponseException? then Carried(e.carried)
    else if expectsJson && e.ValidationException? then
      Json(HTTP_UNPROCESSABLE_ENTITY, VALIDATION_MESSAGE, None, Some(e.errors))
    else ParentRender(e, expectsJson)
  }

  predicate IsConflict(r: Response)
  {
    r.Json? && r.status == HTTP_CONFLICT
  }

  /** A database exception becomes 409 exactly when the request wants JSON,
      the message names the reservations table, and the exception is a
      UniqueConstraintViolationException or passes the unique test; the
      `source` field marks the first callback. */
  lemma ConflictIff(e: Exception, expectsJson: bool)
    requires e.QueryException?
    ensures IsConflict(Render(e, expectsJson)) <==>
      expectsJson && IsReservationsUniqueViolation(e.message) &&
      (e.uniqueConstraint || LooksUnique(e.code, e.errorInfo0, e.message))
    ensures IsConflict(Render(e, expectsJson)) ==>
      Render(e, expectsJson).message == CONFLICT_MESSAGE &&
      (Render(e, expectsJson).source == Some(CONFLICT_SOURCE) <==> e.uniqueConstraint)
    ensures !IsConflict(Render(e, expectsJson)) ==> Render(e, expectsJson) == FrameworkDefault
  {
  }

  /** Every 409 produced here comes with a message that names the reservations table. */
  lemma ConflictNamesReservations(e: Exception, expectsJson: bool)
    requires IsConflict(Render(e, expectsJson))
    ensures e.QueryException? && IsReservationsUniqueViolation(e.message)
  {
  }

  /** Requests that do not want JSON are never answered by this handler. */
  lemma NonJsonFallsThrough(e: Exception)
    ensures Render(e, false) == FrameworkDefault
  {
  }

  /** The exclusion constraint reports SQLSTATE 23P01 with a "conflicting key
      value" message: unless that message also carries one of the unique
      markers, it is not turned into 409. */
  lemma ExclusionViolationNotConflict(errorInfo0: Option<string>, message: string, expectsJson: bool)
    requires !ContainsAny(message, UNIQUE_MARKERS)
    ensures Render(QueryException(false, StrCode("23P01"), errorInfo0, message), expectsJson) == FrameworkDefault
  {
  }

  /** An integer code 23505 fails the strict comparison; only the message
      markers can then make the exception look unique. */
  lemma IntegerCodeIsNotUniqueState(errorInfo0: Option<string>, message: string)
    ensures LooksUnique(IntCode(23505), errorInfo0, message) <==> ContainsAny(message, UNIQUE_MARKERS)
  {
  }

  /** A falsy code defers to `errorInfo[0]`. */
  lemma FalsyCodeUsesErrorInfo(message: string)
    ensures LooksUnique(StrCode("0"), Some("23505"), message)
    ensures LooksUnique(IntCode(0), Some("23505"), message)
  {
  }

  /** The trigger raises its error with SQLSTATE 23505 and a message that does
      not name the table: on its own that message is not a conflict. */
  lemma TriggerMessageAloneNotConflict(expectsJson: bool)
    ensures Render(QueryException(true, StrCode("23505"), Some("23505"), TRIGGER_MESSAGE), expectsJson) == FrameworkDefault
  {
    assert forall i :: 0 <= i < |TRIGGER_MESSAGE| ==> TRIGGER_MESSAGE[i] as int >= 0x80;
    forall k | 0 <= k < |RESERVATIONS_MARKERS|
      ensures !Contains(TRIGGER_MESSAGE, RESERVATIONS_MARKERS[k])
    {
      var m := RESERVATIONS_MARKERS[k];
      assert m[0] == 'r' || m[0] == 'o';
      AbsentFirstChar(TRIGGER_MESSAGE, m);
    }
  }

  const TRIGGER_MESSAGE: string := "同一プログラム内で時間帯が重複しています。"

  /** The trigger function's name, which PostgreSQL can report alongside the
      raised message (as the CONTEXT of the error). */
  const TRIGGER_FUNCTION_NAME: string := "reservations_no_overlap_trg_fn"

  /** Once the exception message mentions the trigger function, wherever in
      the text, the trigger's refusal is a conflict for a JSON request: the
      function's name carries the "reservations_" marker. */
  lemma TriggerFunctionNameMakesConflict(before: string, after: string)
    ensures IsConflict(Render(QueryException(true, StrCode("23505"), Some("23505"), before + TRIGGER_FUNCTION_NAME + after), true))
  {
    var n := RESERVATIONS_MARKERS[0];
    assert n[..|n|] == n;
    assert TRIGGER_FUNCTION_NAME == [] + n + "no_overlap_trg_fn";
    ContainsInside([], n, "no_overlap_trg_fn", n);
    ReservationsTestMonotone(before, TRIGGER_FUNCTION_NAME, after);
    ConflictIff(QueryException(true, StrCode("23505"), Some("23505"), before + TRIGGER_FUNCTION_NAME + after), true);
  }

  /** The test also accepts tables whose name merely contains
      "reservations_" (a `user_reservations_...` index, say). */
  lemma OtherTableCanMatch()
    ensures IsReservationsUniqueViolation(OTHER_TABLE_MESSAGE)
  {
    var n := RESERVATIONS_MARKERS[0];
    assert n[..|n|] == n;
    ContainsInside(OTHER_TABLE_PREFIX, n, OTHER_TABLE_SUFFIX, n);
  }

  const OTHER_TABLE_PREFIX: string := "duplicate key value violates unique constraint \"user_"
  const OTHER_TABLE_SUFFIX: string := "email_unique\""
  const OTHER_TABLE_MESSAGE: string := OTHER_TABLE_PREFIX + "reservations_" + OTHER_TABLE_SUFFIX
}
