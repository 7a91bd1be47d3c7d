/** `IntoResponse for Error`: the single place where domain errors become HTTP
    problem-details responses. */
module ErrorResponse {
  import opened Wrappers
  import opened DomainError
  import opened Problem
  import opened Http

  /** The problem details of an error: the constructor chosen by its kind,
      with only `detail` overridden. */
  function ProblemOf(e: Error): ProblemDetails {
    match e
    case Persistence(reason) => SetDetail(From503(), reason)
    case InvalidPermission => SetDetail(From403(), Display(e))
    case _ => SetDetail(From400(), Display(e))
  }

  function IntoResponse(e: Error): (r: Response)
    ensures r.JsonProblem? && ContentType(r) == Some("application/json")
    ensures r.status == r.body.status as int
    ensures e.Persistence? ==>
      && r.status == 503 && r.body.detail == e.reason
      && r.body.ttype == ServiceUnavailableType && r.body.title == "Service Unavailable"
    ensures e == InvalidPermission ==>
      && r.status == 403 && r.body.detail == "invalid permission"
      && r.body.ttype == ForbiddenType && r.body.title == "Forbidden"
    ensures !e.Persistence? && e != InvalidPermission ==>
      && r.status == 400 && r.body.detail == Display(e)
      && r.body.ttype == BadRequestType && r.body.title == "Bad Request"
  {
    var problem := ProblemOf(e);
    JsonProblem(FromU16(problem.status).GetOr(ImATeapot), problem)
  }

  /** The response identifies the error: no two errors answer alike. */
  lemma IntoResponseInjective(a: Error, b: Error)
    requires IntoResponse(a) == IntoResponse(b)
    ensures a == b
  {
    if !a.Persistence? && a != InvalidPermission {
      DisplayInjective(a, b);
    }
  }

  /** A persistence error answers with the bare driver reason, not with its
      "db error: " display form. */
  lemma PersistenceDetailIsReason(reason: string)
    ensures IntoResponse(Persistence(reason)).body.detail == reason
    ensures IntoResponse(Persistence(reason)).body.detail != Display(Persistence(reason))
  {
  }

  /** The `418` fallback is never taken: every status the mapping sets is a
      valid code. */
  lemma NoTeapot(e: Error)
    ensures IntoResponse(e).status != 418
    ensures FromU16(ProblemOf(e).status).Some?
  {
  }
}
