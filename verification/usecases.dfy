/** The two use cases: `SaveProduct` builds the entity and saves it;
    `GetProducts` lists through the repository. */
module UseCases {
  import opened Wrappers
  import opened DomainError
  import opened Utf8
  import opened UuidText
  import opened Id
  import opened Name
  import opened Price
  import opened Currency
  import opened Timestamp
  import opened Product
  import opened ProductRow
  import opened ProductRepository

  /** `SaveProductInput`, the request body. */
  datatype SaveProductInput = SaveProductInput(id: string, name: string, price: i32, currency: string)

  predicate ValidInput(parse: UuidParser, input: SaveProductInput) {
    && parse(input.id).Some?
    && 1 <= |Encode(input.name)| <= 256
    && 0 <= input.price as int <= 1_000_000_000
    && (input.currency == "EUR" || input.currency == "USD")
  }

  /** `SaveProduct::exec`: a refused input never reaches the repository; a
      valid one is saved exactly once. */
  function SaveProductExec(parse: UuidParser, now: Instant, input: SaveProductInput,
                           t: Table, fault: Option<DriverError>, insertedAt: Instant): (s: Saved)
    ensures !ValidInput(parse, input) ==>
      && s.table == t
      && s.result == Err(New(parse, now, input.id, input.name, input.price, input.currency).error)
    ensures s.result.Ok? <==> ValidInput(parse, input) && fault.None? && !HasId(t, parse(input.id).value)
    ensures s.result.Err? ==> s.table == t
    ensures s.result.Ok? ==>
      s.table.rows == t.rows + [[ UuidCol(parse(input.id).value), TextCol(input.name), Int4Col(input.price),
                                  TextCol(input.currency), TimestampCol(insertedAt), TimestampCol(insertedAt) ]]
  {
    match New(parse, now, input.id, input.name, input.price, input.currency)
    case Err(e) => Saved(t, Err(e))
    case Ok(product) => Save(t, product, fault, insertedAt)
  }

  /** A saved input is found under its id with exactly the submitted fields. */
  lemma SaveProductThenGetById(parse: UuidParser, now: Instant, input: SaveProductInput,
                               t: Table, insertedAt: Instant)
    requires ValidInput(parse, input)
    requires !HasId(t, parse(input.id).value)
    ensures var s := SaveProductExec(parse, now, input, t, None, insertedAt);
            && s.result == Ok(Unit)
            && var found := GetById(s.table, ProductId(parse(input.id).value), None);
               && found.Ok? && found.value.Some?
               && found.value.value.name.value == input.name
               && found.value.value.price.value == input.price
               && Currency.Display(found.value.value.currency) == input.currency
               && found.value.value.createdAt == found.value.value.updatedAt == ProductTimeStamp(insertedAt)
  {
    var p := New(parse, now, input.id, input.name, input.price, input.currency).value;
    SaveThenGetById(t, p, insertedAt);
  }

  /** `GetProducts::exec`: the repository's `get`, unchanged. */
  method GetProductsExec(t: Table, fault: Option<DriverError>) returns (r: Result<seq<Product>, Error>)
    ensures r.Ok? <==> fault.None? && AllDecode(t.rows[..Min(GetLimit, |t.rows|)])
    ensures r.Ok? ==> |r.value| == Min(GetLimit, |t.rows|)
    ensures r.Ok? ==> forall i :: 0 <= i < |r.value| ==> FromRow(t.rows[i]) == Ok(r.value[i])
    ensures fault.Some? ==> r == Err(Persistence(fault.value.text))
    ensures r.Err? && fault.None? ==>
      exists i :: && 0 <= i < Min(GetLimit, |t.rows|)
                  && (forall k :: 0 <= k < i ==> FromRow(t.rows[k]).Ok?)
                  && FromRow(t.rows[i]).Err?
                  && r.error == Persistence(DecodeText(FromRow(t.rows[i]).error))
    ensures r.Err? ==> r.error.Persistence?
  {
    r := Get(t, fault);
  }
}
