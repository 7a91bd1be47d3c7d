/** `ProductId`: a wrapper over a 128-bit UUID. Text is accepted through the
    UUID library's parser, passed in as `parse`: the model does not fix which
    textual forms it takes beyond requiring, where a property needs it, that
    it reads the hyphenated form. */
module Id {
  import opened Wrappers
  import opened DomainError
  import opened UuidText

  datatype ProductId = ProductId(uuid: Uuid)

  /** `uuid::Uuid::parse_str`. */
  type UuidParser = string -> Option<Uuid>

  /** The parser reads every hyphenated text as section 3 of RFC 4122 lays it
      out (it may accept further forms). */
  ghost predicate ReadsHyphenated(parse: UuidParser) {
    forall s :: Parse(s).Some? ==> parse(s) == Parse(s)
  }

  /** `TryFrom<&str>` and `TryFrom<String>`. */
  function TryFrom(parse: UuidParser, value: string): (r: Result<ProductId, Error>)
    ensures r.Ok? <==> parse(value).Some?
    ensures r.Ok? ==> r.value.uuid == parse(value).value
    ensures r.Err? ==> r.error == InvalidProductId
  {
    match parse(value)
    case Some(u) => Ok(ProductId(u))
    case None => Err(InvalidProductId)
  }

  /** `From<Uuid>`. */
  function From(u: Uuid): ProductId {
    ProductId(u)
  }

  /** `Default`: the newly generated version-4 UUID is an input. */
  function Default(generated: Uuid): ProductId {
    ProductId(generated)
  }

  function ToUuid(id: ProductId): Uuid {
    id.uuid
  }

  function ToPrimitive(id: ProductId): string {
    Format(id.uuid)
  }

  function Display(id: ProductId): string {
    Format(id.uuid)
  }

  /** Wrapping loses nothing, and equality is that of the UUIDs. */
  lemma FromToUuid(u: Uuid, v: Uuid)
    ensures ToUuid(From(u)) == u
    ensures From(u) == From(v) <==> u == v
  {
  }

  /** The primitive text identifies the id: it is read back as the same id,
      and `Display` writes the same text. */
  lemma PrimitiveRoundTrip(parse: UuidParser, id: ProductId)
    requires ReadsHyphenated(parse)
    ensures TryFrom(parse, ToPrimitive(id)) == Ok(id)
    ensures Display(id) == ToPrimitive(id)
  {
    ParseFormat(id.uuid);
  }

  /** Every hyphenated text is accepted and written back lower-cased. */
  lemma HyphenatedAccepted(parse: UuidParser, s: string)
    requires ReadsHyphenated(parse)
    requires Parse(s).Some?
    ensures TryFrom(parse, s).Ok?
    ensures ToPrimitive(TryFrom(parse, s).value) == Lower(s)
  {
    FormatParse(s);
  }

  lemma ToPrimitiveInjective(a: ProductId, b: ProductId)
    requires ToPrimitive(a) == ToPrimitive(b)
    ensures a == b
  {
    FormatInjective(a.uuid, b.uuid);
  }
}
