/** The `Product` aggregate: four validated value objects and two timestamps
    with `created_at <= updated_at`. */
module Product {
  import opened Wrappers
  import opened DomainError
  import opened Utf8
  import opened UuidText
  import opened Id
  import opened Name
  import opened Price
  import opened Currency
  import opened Timestamp

  datatype Product = Product(
    id: ProductId,
    name: ValidName,
    price: ValidPrice,
    currency: ProductCurrency,
    createdAt: ProductTimeStamp,
    updatedAt: ProductTimeStamp)

  /** `Product::validate`: the cross-field invariant. */
  function Validate(p: Product): (r: Result<Unit, Error>)
    ensures r.Ok? <==> p.createdAt.instant <= p.updatedAt.instant
    ensures r.Err? ==> r.error == InvalidProductTimeStampRelation
  {
    if After(p.createdAt, p.updatedAt) then Err(InvalidProductTimeStampRelation) else Ok(Unit)
  }

  /** `Product::new`: id, name, price, currency are checked in that order and
      the first failure is returned; `now` is the single clock reading taken
      before any check, used for both timestamps. */
  function New(parse: UuidParser, now: Instant, id: string, name: string, price: i32, currency: string)
    : (r: Result<Product, Error>)
    ensures parse(id).None? ==> r == Err(InvalidProductId)
    ensures parse(id).Some? && !(1 <= |Encode(name)| <= 256) ==> r == Err(InvalidProductName)
    ensures parse(id).Some? && 1 <= |Encode(name)| <= 256 && !(0 <= price as int <= 1_000_000_000)
            ==> r == Err(InvalidProductPrice)
    ensures parse(id).Some? && 1 <= |Encode(name)| <= 256 && 0 <= price as int <= 1_000_000_000
            && currency != "EUR" && currency != "USD"
            ==> r == Err(InvalidProductCurrency)
    ensures r.Ok? <==> parse(id).Some? && 1 <= |Encode(name)| <= 256 && 0 <= price as int <= 1_000_000_000
                       && (currency == "EUR" || currency == "USD")
    ensures r.Ok? ==> && r.value.id.uuid == parse(id).value
                      && r.value.name.value == name
                      && r.value.price.value == price
                      && Currency.Display(r.value.currency) == currency
                      && r.value.createdAt == r.value.updatedAt == ProductTimeStamp(now)
    ensures r.Err? ==> r.error != InvalidProductTimeStampRelation
  {
    var timestamp := Timestamp.Default(now);
    var productId :- Id.TryFrom(parse, id);
    var productName :- Name.TryFrom(name);
    var productPrice :- Price.TryFrom(price);
    var productCurrency :- Currency.TryFrom(currency);
    var product := Product(productId, productName, productPrice, productCurrency, timestamp, timestamp);
    match Validate(product)
    case Err(e) => Err(e)
    case Ok(_) => Ok(product)
  }

  /** Every product `New` builds satisfies the invariant `Validate` checks. */
  lemma NewIsValid(parse: UuidParser, now: Instant, id: string, name: string, price: i32, currency: string)
    requires New(parse, now, id, name, price, currency).Ok?
    ensures Validate(New(parse, now, id, name, price, currency).value).Ok?
  {
  }

  /** The canonical text of a valid product's fields is accepted again and
      rebuilds the same product, stamped with the new clock reading. */
  lemma NewFromPrimitives(parse: UuidParser, p: Product, now: Instant)
    requires ReadsHyphenated(parse)
    ensures New(parse, now, Id.ToPrimitive(p.id), Name.ToPrimitive(p.name), Price.ToPrimitive(p.price),
                Currency.ToPrimitive(p.currency))
            == Ok(p.(createdAt := ProductTimeStamp(now), updatedAt := ProductTimeStamp(now)))
  {
    Id.PrimitiveRoundTrip(parse, p.id);
    Currency.DisplayRoundTrip(p.currency);
  }
}
