/** The second problem-details library. Its record (field `typee`, also
    serialised as `type`) and its four setters are those of `ProblemDetails`;
    only its constructors differ: they leave `detail` at its empty default. */
module ProblemDet {
  import opened Problem

  function From400(): (r: ProblemDetails)
    ensures r.ttype == BadRequestType && r.status == 400
    ensures r.title == "Bad Request" && r.detail == ""
  {
    SetTitle(SetStatus(SetType(Default(), BadRequestType), 400), "Bad Request")
  }

  function From401(): (r: ProblemDetails)
    ensures r.ttype == UnauthorizedType && r.status == 401
    ensures r.title == "Unauthorized" && r.detail == ""
  {
    SetTitle(SetStatus(SetType(Default(), UnauthorizedType), 401), "Unauthorized")
  }

  function From403(): (r: ProblemDetails)
    ensures r.ttype == ForbiddenType && r.status == 403
    ensures r.title == "Forbidden" && r.detail == ""
  {
    SetTitle(SetStatus(SetType(Default(), ForbiddenType), 403), "Forbidden")
  }

  function From503(): (r: ProblemDetails)
    ensures r.ttype == ServiceUnavailableType && r.status == 503
    ensures r.title == "Service Unavailable" && r.detail == ""
  {
    SetTitle(SetStatus(SetType(Default(), ServiceUnavailableType), 503), "Service Unavailable")
  }

  /** The two libraries agree on everything but the default detail. */
  lemma AgreesWithProblemDetails()
    ensures From400() == SetDetail(Problem.From400(), "")
    ensures From401() == SetDetail(Problem.From401(), "")
    ensures From403() == SetDetail(Problem.From403(), "")
    ensures From503() == SetDetail(Problem.From503(), "")
  {
  }
}
