/** `ProductCurrency`: one of two currencies, written as its enumerator name. */
module Currency {
  import opened Wrappers
  import opened DomainError

  datatype ProductCurrency = EUR | USD

  function Display(c: ProductCurrency): string {
    match c
    case EUR => "EUR"
    case USD => "USD"
  }

  /** The text the repository stores and the serialiser emits; it is the
      `Display` text. */
  function ToPrimitive(c: ProductCurrency): string {
    Display(c)
  }

  /** `TryFrom<&str>` and `TryFrom<String>`: exact, case-sensitive match. */
  function TryFrom(value: string): (r: Result<ProductCurrency, Error>)
    ensures r.Ok? <==> value == "EUR" || value == "USD"
    ensures r.Ok? ==> Display(r.value) == value
    ensures r.Err? ==> r.error == InvalidProductCurrency
  {
    match value
    case "EUR" => Ok(EUR)
    case "USD" => Ok(USD)
    case _ => Err(InvalidProductCurrency)
  }

  /** Every currency round-trips through its text. */
  lemma DisplayRoundTrip(c: ProductCurrency)
    ensures TryFrom(Display(c)) == Ok(c)
    ensures TryFrom(ToPrimitive(c)) == Ok(c)
  {
  }

  /** Near misses are refused. */
  lemma ExactMatchOnly()
    ensures TryFrom("eur") == Err(InvalidProductCurrency)
    ensures TryFrom(" EUR") == Err(InvalidProductCurrency)
    ensures TryFrom("EUR ") == Err(InvalidProductCurrency)
    ensures TryFrom("") == Err(InvalidProductCurrency)
  {
  }
}
