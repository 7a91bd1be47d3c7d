/** The problem-details record of RFC 9457, section 3: members `type`,
    `title`, `detail` and `status`, with canonical shapes for the statuses the
    service emits. The `type` URIs point at section 15 of RFC 9110. */
module Problem {
  import opened Wrappers
  import opened Json

  newtype u16 = x: int | 0 <= x < 0x1_0000

  /** `ttype` is the Rust field name; on the wire the member is `type`. */
  datatype ProblemDetails = ProblemDetails(ttype: string, title: string, detail: string, status: u16)

  const StatusUrlBase: string := "https://www.rfc-editor.org/rfc/rfc9110.html#name-"

  const BadRequestType: string := StatusUrlBase + "400-bad-request"
  const UnauthorizedType: string := StatusUrlBase + "401-unauthorized"
  const ForbiddenType: string := StatusUrlBase + "403-forbidden"
  const ServiceUnavailableType: string := StatusUrlBase + "503-service-unavailable"

  /** The derived `Default`. */
  function Default(): (r: ProblemDetails)
    ensures r.ttype == "" && r.title == "" && r.detail == "" && r.status == 0
  {
    ProblemDetails("", "", "", 0)
  }

  function SetType(p: ProblemDetails, value: string): (r: ProblemDetails)
    ensures r.ttype == value
    ensures r.title == p.title && r.detail == p.detail && r.status == p.status
  {
    p.(ttype := value)
  }

  function SetTitle(p: ProblemDetails, value: string): (r: ProblemDetails)
    ensures r.title == value
    ensures r.ttype == p.ttype && r.detail == p.detail && r.status == p.status
  {
    p.(title := value)
  }

  function SetDetail(p: ProblemDetails, value: string): (r: ProblemDetails)
    ensures r.detail == value
    ensures r.ttype == p.ttype && r.title == p.title && r.status == p.status
  {
    p.(detail := value)
  }

  function SetStatus(p: ProblemDetails, value: u16): (r: ProblemDetails)
    ensures r.status == value
    ensures r.ttype == p.ttype && r.title == p.title && r.detail == p.detail
  {
    p.(status := value)
  }

  /** The builder chain every `from_xxx` constructor runs: type, status, then
      the same message as title and detail. */
  function Canonical(url: string, status: u16, msg: string): ProblemDetails {
    SetDetail(SetTitle(SetStatus(SetType(Default(), url), status), msg), msg)
  }

  function From400(): (r: ProblemDetails)
    ensures r.ttype == BadRequestType && r.status == 400
    ensures r.title == "Bad Request" && r.detail == r.title
  {
    Canonical(BadRequestType, 400, "Bad Request")
  }

  function From401(): (r: ProblemDetails)
    ensures r.ttype == UnauthorizedType && r.status == 401
    ensures r.title == "Unauthorized" && r.detail == r.title
  {
    Canonical(UnauthorizedType, 401, "Unauthorized")
  }

  function From403(): (r: ProblemDetails)
    ensures r.ttype == ForbiddenType && r.status == 403
    ensures r.title == "Forbidden" && r.detail == r.title
  {
    Canonical(ForbiddenType, 403, "Forbidden")
  }

  function From503(): (r: ProblemDetails)
    ensures r.ttype == ServiceUnavailableType && r.status == 503
    ensures r.title == "Service Unavailable" && r.detail == r.title
  {
    Canonical(ServiceUnavailableType, 503, "Service Unavailable")
  }

  /** Setting one field twice keeps only the last value, and setters of
      different fields commute: each setter owns exactly one field. */
  lemma SettersIndependent(p: ProblemDetails, a: string, b: string, n: u16)
    ensures SetDetail(SetDetail(p, a), b) == SetDetail(p, b)
    ensures SetTitle(SetDetail(p, a), b) == SetDetail(SetTitle(p, b), a)
    ensures SetType(SetDetail(p, a), b) == SetDetail(SetType(p, b), a)
    ensures SetStatus(SetDetail(p, a), n) == SetDetail(SetStatus(p, n), a)
    ensures SetType(SetTitle(p, a), b) == SetTitle(SetType(p, b), a)
    ensures SetStatus(SetType(p, a), n) == SetType(SetStatus(p, n), a)
  {
  }

  /** The derived `Serialize`: members in declaration order, `ttype` renamed. */
  function ToJson(p: ProblemDetails): seq<Member> {
    [("type", JString(p.ttype)), ("title", JString(p.title)),
     ("detail", JString(p.detail)), ("status", JNumber(p.status as int))]
  }

  /** The derived `Deserialize`: every member required, found by name, in any
      order; members with other names are ignored. */
  function FromJson(ms: seq<Member>): Option<ProblemDetails> {
    var ttype :- Find(ms, "type");
    var title :- Find(ms, "title");
    var detail :- Find(ms, "detail");
    var status :- Find(ms, "status");
    if ttype.JString? && title.JString? && detail.JString? && status.JNumber? && 0 <= status.n < 0x1_0000 then
      Some(ProblemDetails(ttype.s, title.s, detail.s, status.n as u16))
    else
      None
  }

  lemma ToJsonLayout(p: ProblemDetails)
    ensures Keys(ToJson(p)) == ["type", "title", "detail", "status"]
  {
  }

  /** Serialising and deserialising gives back the record. */
  lemma JsonRoundTrip(p: ProblemDetails)
    ensures FromJson(ToJson(p)) == Some(p)
  {
    var ms := ToJson(p);
    assert ms[0].0 == "type";
    assert ms[1].0 == "title" && ms[1].0 != "type";
    assert ms[2].0 == "detail" && ms[2].0 != "type" && ms[2].0 != "title";
    assert ms[3].0 == "status" && ms[3].0 != "type" && ms[3].0 != "title" && ms[3].0 != "detail";
  }
}
