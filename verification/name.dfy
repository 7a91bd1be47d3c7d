/** `ProductName`: a string whose UTF-8 encoding is 1 to 256 bytes long. */
module Name {
  import opened Wrappers
  import opened DomainError
  import opened Utf8

  const NameMinLength: nat := 1
  const NameMaxLength: nat := 256

  datatype ProductName = ProductName(value: string)

  /** A `ProductName` can only be built through `TryFrom`, so every one in
      memory has an accepted length. */
  type ValidName = n: ProductName | NameMinLength <= ByteLength(n.value) <= NameMaxLength
    witness ProductName("a")

  /** `TryFrom<&str>` and `TryFrom<String>` (the latter delegates to the
      former, so both are this one function). */
  function TryFrom(value: string): (r: Result<ValidName, Error>)
    ensures r.Ok? <==> 1 <= |Encode(value)| <= 256
    ensures r.Ok? ==> r.value.value == value
    ensures r.Err? ==> r.error == InvalidProductName
  {
    if NameMinLength <= ByteLength(value) <= NameMaxLength then Ok(ProductName(value))
    else Err(InvalidProductName)
  }

  function ToPrimitive(n: ValidName): string {
    n.value
  }

  /** `Display` writes the stored string. */
  function Display(n: ValidName): string {
    n.value
  }

  /** Every name in memory is rebuilt from its primitive. */
  lemma FromPrimitiveRoundTrip(n: ValidName)
    ensures TryFrom(ToPrimitive(n)) == Ok(n)
    ensures Display(n) == ToPrimitive(n)
  {
  }

  /** Between 1 and 64 characters every string fits (at most four bytes a
      character); beyond 256 characters none does. */
  lemma CharacterCountBounds(s: string)
    ensures 1 <= |s| <= 64 ==> TryFrom(s).Ok?
    ensures |s| == 0 || |s| > 256 ==> TryFrom(s) == Err(InvalidProductName)
  {
    ByteLengthBounds(s);
  }

  /** For ASCII the byte length is the character count. */
  lemma AsciiName(s: string)
    requires IsAscii(s)
    ensures TryFrom(s).Ok? <==> 1 <= |s| <= 256
  {
    AsciiByteLength(s);
  }

  /** 129 two-byte characters are 258 bytes: rejected although only 129
      characters long. */
  lemma TwoByteCharactersCountDouble()
    ensures |Repeat('é', 129)| == 129
    ensures TryFrom(Repeat('é', 129)) == Err(InvalidProductName)
  {
    RepeatByteLength('é', 129);
  }
}
