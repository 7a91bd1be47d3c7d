/** The `save_product` HTTP handler, and the request path that reaches it:
    the identity extractor runs first, then the permission check, then the
    use case. The request body arrives already decoded. */
module SaveProductHandler {
  import opened Wrappers
  import opened DomainError
  import opened Permissions
  import opened Utf8
  import opened UuidText
  import opened Id
  import opened Timestamp
  import opened Product
  import opened Problem
  import opened Http
  import opened ErrorResponse
  import opened JwkCache
  import opened Identity
  import opened ProductRepository
  import opened UseCases

  datatype Handled = Handled(table: Table, response: Response)

  /** `save_product`: 403 without the create permission, the use case's error
      through `IntoResponse`, or `202 Accepted`. */
  function Handle(claims: IdentityClaims, parse: UuidParser, now: Instant, input: SaveProductInput,
                  t: Table, fault: Option<DriverError>, insertedAt: Instant): (h: Handled)
    ensures CheckPermission(claims, EcommerceBackofficeProductCreate).Err? ==>
      h == Handled(t, IntoResponse(InvalidPermission)) && h.response.status == 403
    ensures h.response == StatusOnly(Accepted) <==>
      && CheckPermission(claims, EcommerceBackofficeProductCreate).Ok?
      && SaveProductExec(parse, now, input, t, fault, insertedAt).result.Ok?
    ensures h.response != StatusOnly(Accepted) ==> h.table == t && h.response.JsonProblem?
    ensures CheckPermission(claims, EcommerceBackofficeProductCreate).Ok? ==>
      h.table == SaveProductExec(parse, now, input, t, fault, insertedAt).table
    ensures CheckPermission(claims, EcommerceBackofficeProductCreate).Ok?
            && SaveProductExec(parse, now, input, t, fault, insertedAt).result.Err? ==>
      h.response == IntoResponse(SaveProductExec(parse, now, input, t, fault, insertedAt).result.error)
  {
    match CheckPermission(claims, EcommerceBackofficeProductCreate)
    case Err(e) => Handled(t, IntoResponse(e))
    case Ok(_) =>
      var s := SaveProductExec(parse, now, input, t, fault, insertedAt);
      match s.result
      case Err(e) => Handled(s.table, IntoResponse(e))
      case Ok(_) => Handled(s.table, StatusOnly(Accepted))
  }

  /** A refused input answers 400 with the first refused field's message and
      stores nothing. */
  lemma InvalidInputIsBadRequest(claims: IdentityClaims, parse: UuidParser, now: Instant, input: SaveProductInput,
                                 t: Table, fault: Option<DriverError>, insertedAt: Instant)
    requires CheckPermission(claims, EcommerceBackofficeProductCreate).Ok?
    requires !ValidInput(parse, input)
    ensures Handle(claims, parse, now, input, t, fault, insertedAt).response.status == 400
    ensures Handle(claims, parse, now, input, t, fault, insertedAt).response.body.detail ==
      DomainError.Display(New(parse, now, input.id, input.name, input.price, input.currency).error)
    ensures Handle(claims, parse, now, input, t, fault, insertedAt).table == t
  {
    var s := SaveProductExec(parse, now, input, t, fault, insertedAt);
    var e := s.result.error;
    assert e in {InvalidProductId, InvalidProductName, InvalidProductPrice, InvalidProductCurrency};
    assert IntoResponse(e).status == 400;
  }

  /** A duplicate id answers 400 with "product already exists". */
  lemma DuplicateIsBadRequest(claims: IdentityClaims, parse: UuidParser, now: Instant, input: SaveProductInput,
                              t: Table, insertedAt: Instant)
    requires CheckPermission(claims, EcommerceBackofficeProductCreate).Ok?
    requires ValidInput(parse, input) && HasId(t, parse(input.id).value)
    ensures var h := Handle(claims, parse, now, input, t, None, insertedAt);
            h.response.status == 400 && h.response.body.detail == "product already exists"
  {
    assert SaveProductExec(parse, now, input, t, None, insertedAt).result == Err(ProductAlreadyExists);
  }

  /** Any other driver failure answers 503 with the driver's message. */
  lemma DriverFailureIsUnavailable(claims: IdentityClaims, parse: UuidParser, now: Instant, input: SaveProductInput,
                                   t: Table, e: DriverError, insertedAt: Instant)
    requires CheckPermission(claims, EcommerceBackofficeProductCreate).Ok?
    requires ValidInput(parse, input)
    requires !(e.Database? && e.code == Some(UniqueViolation))
    ensures var h := Handle(claims, parse, now, input, t, Some(e), insertedAt);
            h.response.status == 503 && h.response.body.detail == e.text
  {
    assert SaveProductExec(parse, now, input, t, Some(e), insertedAt).result == Err(Persistence(e.text));
  }

  datatype Answered = Answered(cache: Cache, table: Table, response: Response)

  /** `PUT /product/` with a product body: identity extraction, then the handler. A refused
      token answers 401 before any check of the body or the permission. */
  function SaveProductRequest(o: Oracles, env: Env, provider: KeySetProvider, cache: Cache, now: Instant,
                              fetch: FetchOutcome, authorization: Option<seq<byte>>,
                              parse: UuidParser, input: SaveProductInput,
                              t: Table, fault: Option<DriverError>, insertedAt: Instant): (r: Answered)
    ensures Extract(o, env, provider, cache, now, fetch, authorization).result.Err? ==>
      r.response == UnauthorizedResponse() && r.table == t
    ensures r.cache == Extract(o, env, provider, cache, now, fetch, authorization).cache
    ensures Extract(o, env, provider, cache, now, fetch, authorization).result.Ok? ==>
      var h := Handle(Extract(o, env, provider, cache, now, fetch, authorization).result.value,
                      parse, now, input, t, fault, insertedAt);
      r.table == h.table && r.response == h.response
  {
    var x := Extract(o, env, provider, cache, now, fetch, authorization);
    match x.result
    case Err(rejection) => Answered(x.cache, t, rejection)
    case Ok(claims) =>
      var h := Handle(claims, parse, now, input, t, fault, insertedAt);
      Answered(x.cache, h.table, h.response)
  }

  /** No product is stored without a verified token that grants
      `ecommerce.backoffice.product:create`; and an accepted request stores
      exactly one row. */
  lemma AcceptedOnlyWithCreatePermission(o: Oracles, env: Env, provider: KeySetProvider, cache: Cache,
                                         now: Instant, fetch: FetchOutcome, authorization: Option<seq<byte>>,
                                         parse: UuidParser, input: SaveProductInput,
                                         t: Table, fault: Option<DriverError>, insertedAt: Instant)
    ensures var r := SaveProductRequest(o, env, provider, cache, now, fetch, authorization,
                                        parse, input, t, fault, insertedAt);
            var x := Extract(o, env, provider, cache, now, fetch, authorization);
            (r.table != t || r.response == StatusOnly(Accepted)) ==>
              && x.result.Ok?
              && x.result.value.permissions.Some?
              && "ecommerce.backoffice.product:create" in x.result.value.permissions.value
              && r.response == StatusOnly(Accepted)
              && |r.table.rows| == |t.rows| + 1
  {
    var x := Extract(o, env, provider, cache, now, fetch, authorization);
    if x.result.Ok? {
      var h := Handle(x.result.value, parse, now, input, t, fault, insertedAt);
      if CheckPermission(x.result.value, EcommerceBackofficeProductCreate).Ok? {
        var s := SaveProductExec(parse, now, input, t, fault, insertedAt);
        if s.result.Ok? {
          assert |s.table.rows| == |t.rows| + 1;
        }
      }
    }
  }
}
