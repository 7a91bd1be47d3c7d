/** The HTTP responses the core produces: a status code and either a JSON
    problem-details body or no body. */
module Http {
  import opened Wrappers
  import opened Problem

  /** What `axum::http::StatusCode` can hold: three-digit codes. */
  type StatusCode = x: int | 100 <= x <= 999 witness 200

  const Accepted: StatusCode := 202
  const Unauthorized: StatusCode := 401
  const ImATeapot: StatusCode := 418

  /** `StatusCode::from_u16`. */
  function FromU16(n: u16): (r: Option<StatusCode>)
    ensures r.Some? <==> 100 <= n as int <= 999
    ensures r.Some? ==> r.value == n as int
  {
    if 100 <= n as int <= 999 then Some(n as int) else None
  }

  datatype Response =
    /** `JsonResponse::with_status`: the serialised problem details with
        `Content-Type: application/json`. */
    | JsonProblem(status: StatusCode, body: ProblemDetails)
    /** A bare status such as `StatusCode::ACCEPTED` as a response. */
    | StatusOnly(status: StatusCode)

  function ContentType(r: Response): Option<string> {
    if r.JsonProblem? then Some("application/json") else None
  }

  /** The 401 every identity rejection answers with. */
  function UnauthorizedResponse(): (r: Response)
    ensures r.status == 401 && r.JsonProblem? && r.body == From401()
  {
    JsonProblem(Unauthorized, From401())
  }
}
