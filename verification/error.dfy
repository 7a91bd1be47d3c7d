/** The domain error enumeration shared by the e-commerce contexts, and its
    `Display` strings. */
module DomainError {
  import opened Wrappers

  datatype Error =
    | Persistence(reason: string)
    | ProductAlreadyExists
    | InvalidProductTimeStampRelation
    | InvalidProductId
    | InvalidProductName
    | InvalidProductPrice
    | InvalidProductCurrency
    | InvalidPermission

  const PersistencePrefix: string := "db error: "

  /** `Display` of every variant that carries no payload. */
  function ConstantText(e: Error): string
    requires !e.Persistence?
  {
    match e
    case ProductAlreadyExists => "product already exists"
    case InvalidProductTimeStampRelation => "invalid product timestamp relation"
    case InvalidProductId => "invalid product id"
    case InvalidProductName => "invalid product name"
    case InvalidProductPrice => "invalid product price"
    case InvalidProductCurrency => "invalid product currency"
    case InvalidPermission => "invalid permission"
  }

  function Display(e: Error): string {
    if e.Persistence? then PersistencePrefix + e.reason else ConstantText(e)
  }

  /** Reads an error back from its display string. */
  function ParseDisplay(s: string): Option<Error> {
    if |PersistencePrefix| <= |s| && s[..|PersistencePrefix|] == PersistencePrefix then
      Some(Persistence(s[|PersistencePrefix|..]))
    else if s == "product already exists" then Some(ProductAlreadyExists)
    else if s == "invalid product timestamp relation" then Some(InvalidProductTimeStampRelation)
    else if s == "invalid product id" then Some(InvalidProductId)
    else if s == "invalid product name" then Some(InvalidProductName)
    else if s == "invalid product price" then Some(InvalidProductPrice)
    else if s == "invalid product currency" then Some(InvalidProductCurrency)
    else if s == "invalid permission" then Some(InvalidPermission)
    else None
  }

  /** No constant display string starts like a persistence error. */
  lemma ConstantTextNotPersistence(e: Error)
    requires !e.Persistence?
    ensures !(|PersistencePrefix| <= |ConstantText(e)| && ConstantText(e)[..|PersistencePrefix|] == PersistencePrefix)
  {
    var t := ConstantText(e);
    assert t[0] == 'p' || t[0] == 'i';
    if |PersistencePrefix| <= |t| && t[..|PersistencePrefix|] == PersistencePrefix {
      assert t[0] == t[..|PersistencePrefix|][0];
    }
  }

  /** Every display string identifies its error. */
  lemma ParseDisplayRoundTrip(e: Error)
    ensures ParseDisplay(Display(e)) == Some(e)
  {
    if e.Persistence? {
      var s := PersistencePrefix + e.reason;
      assert s[..|PersistencePrefix|] == PersistencePrefix;
      assert s[|PersistencePrefix|..] == e.reason;
    } else {
      ConstantTextNotPersistence(e);
    }
  }

  /** Distinct errors display differently; in particular the seven constant
      strings are pairwise distinct. */
  lemma DisplayInjective(a: Error, b: Error)
    requires Display(a) == Display(b)
    ensures a == b
  {
    ParseDisplayRoundTrip(a);
    ParseDisplayRoundTrip(b);
  }
}
