/** Small shared vocabulary: optional values and results. */
module Wrappers {

  datatype Option<+T> = None | Some(value: T) {
    function GetOr(default: T): T {
      match this
      case Some(v) => v
      case None => default
    }
  }

  datatype Result<+T, +E> = Success(value: T) | Failure(error: E)
}

/** The parts of net/http the handlers use: status codes and the response headers they set. */
module Http {

  const OK := 200
  const Created := 201
  const NoContent := 204
  const BadRequest := 400
  const Unauthorized := 401
  const Forbidden := 403
  const NotFound := 404
  const InternalServerError := 500

  const LocationHeader := "Location"
  const EntityHeader := "X-Entity"

  /** The request body after `json.NewDecoder(r.Body).Decode(&in)`: malformed, or the decoded input. */
  datatype Decoded<+T> = Malformed | Decoded(value: T)

  /** A response as the client sees it: the status code and the headers a handler set. */
  datatype Response = Response(code: int, headers: map<string, string>)

  /** `http.Error(w, ..., code)` or a bare `w.WriteHeader(code)`: no header of interest. */
  function Plain(code: int): Response {
    Response(code, map[])
  }

  predicate IsSuccess(code: int) {
    200 <= code < 300
  }

  /** `r.Header.Get(key)`: the empty string when the header is absent. */
  function Header(headers: map<string, string>, key: string): string {
    if key in headers then headers[key] else ""
  }
}

/** The storage layer's error vocabulary as the repositories return it. */
module Store {

  /**
   * sql.ErrNoRows, the lead repository's `errors.New("invalid status transition")`,
   * finance's ErrAlreadyPaid / ErrAlreadyApproved, and any other database failure.
   */
  datatype RepoError =
    | ErrNoRows
    | ErrInvalidTransition
    | ErrAlreadyPaid
    | ErrAlreadyApproved
    | DbFailure(message: string)

  /** What `err.Error()` returns for each error. */
  function Message(e: RepoError): string {
    match e
    case ErrNoRows => "sql: no rows in result set"
    case ErrInvalidTransition => "invalid status transition"
    case ErrAlreadyPaid => "already paid"
    case ErrAlreadyApproved => "already approved"
    case DbFailure(m) => m
  }

  /** A Go `error` result: nil, or an error value. */
  datatype Outcome = Ok | Err(error: RepoError)

  /** Postgres' unique-violation on a primary key (a repeated ULID). */
  const DuplicateKey := "pq: duplicate key value violates unique constraint"
}

/** Instants are whole seconds since the Unix epoch. */
module Clock {
  /** `time.Unix(0, 0)`. */
  const UnixEpoch: int := 0
  /** Go's zero `time.Time` (January 1 of year 1, UTC), the value `IsZero` tests for. */
  const ZeroTime: int := -62135596800
}
