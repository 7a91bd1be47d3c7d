/** `ProductPrice`: an `i32` amount of minor units between 0 and
    1 000 000 000 inclusive. */
module Price {
  import opened Wrappers
  import opened DomainError
  import opened Decimal

  newtype i32 = x: int | -0x8000_0000 <= x < 0x8000_0000

  const ProductPriceMin: i32 := 0
  const ProductPriceMax: i32 := 10_000_000 * 100

  datatype ProductPrice = ProductPrice(value: i32)

  type ValidPrice = p: ProductPrice | ProductPriceMin <= p.value <= ProductPriceMax
    witness ProductPrice(0)

  function TryFrom(value: i32): (r: Result<ValidPrice, Error>)
    ensures r.Ok? <==> 0 <= value as int <= 1_000_000_000
    ensures r.Ok? ==> r.value.value == value
    ensures r.Err? ==> r.error == InvalidProductPrice
  {
    if ProductPriceMin <= value <= ProductPriceMax then Ok(ProductPrice(value))
    else Err(InvalidProductPrice)
  }

  function ToPrimitive(p: ValidPrice): i32 {
    p.value
  }

  function Display(p: ValidPrice): string {
    IntToDecimal(p.value as int)
  }

  lemma FromPrimitiveRoundTrip(p: ValidPrice)
    ensures TryFrom(ToPrimitive(p)) == Ok(p)
  {
  }

  /** Both bounds are inclusive; every negative amount is refused. */
  lemma Bounds()
    ensures TryFrom(0).Ok? && TryFrom(1_000_000_000).Ok?
    ensures TryFrom(-1) == Err(InvalidProductPrice)
    ensures TryFrom(1_000_000_001) == Err(InvalidProductPrice)
    ensures forall v: i32 :: v < 0 ==> TryFrom(v) == Err(InvalidProductPrice)
  {
  }

  /** `Display` is the plain decimal rendering: digits only, no sign, and it
      reads back as the stored amount. */
  lemma DisplayIsDecimal(p: ValidPrice)
    ensures AllDigits(Display(p))
    ensures ParseDecimal(Display(p)) == Some(p.value as int)
  {
    ParseIntToDecimal(p.value as int);
  }
}
